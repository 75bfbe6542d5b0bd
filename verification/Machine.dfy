/** The virtual machine as a transition function: its memory map, registers, one instruction,
    one turn of the run loop. A step whose effect C++ leaves undefined (an access outside every
    buffer, a division by zero, a shift of 32 or more) or that throws (an illegal opcode, a system
    call other than EXIT) sets `fault`. */
module Machine {
  import opened Words
  import opened Isa

  const TEXT_SEGMENT_OFFSET: Word := 0
  const DATA_SEGMENT_OFFSET: Word := 0x1001_0000
  const STACK_OFFSET: Word := 0x8000_0000
  const GLOBAL_OFFSET: Word := 0xFFFF_0000
  const STACK_SIZE := 256
  const GLOBAL_SIZE := 256

  // ----- memory -----

  /** The loaded program: text and data contiguous in one image, and two separate scratch buffers. */
  datatype Memory = Memory(image: seq<Byte>, textLength: nat, stack: seq<Byte>, global: seq<Byte>)

  datatype Buffer = Image | Stack | Global

  datatype Place = Place(buffer: Buffer, index: int)

  /** Which byte of which buffer an address names. */
  function Locate(textLength: nat, a: Word): Place {
    if a < DATA_SEGMENT_OFFSET then Place(Image, a)
    else if a < STACK_OFFSET then Place(Image, a - DATA_SEGMENT_OFFSET + textLength)
    else if a < GLOBAL_OFFSET then Place(Stack, a - STACK_OFFSET)
    else Place(Global, a - GLOBAL_OFFSET)
  }

  function Bytes(m: Memory, b: Buffer): seq<Byte> {
    match b
    case Image => m.image
    case Stack => m.stack
    case Global => m.global
  }

  function WithBytes(m: Memory, b: Buffer, bytes: seq<Byte>): Memory {
    match b
    case Image => m.(image := bytes)
    case Stack => m.(stack := bytes)
    case Global => m.(global := bytes)
  }

  function ReadByte(m: Memory, a: Word): Option<Byte> {
    var p := Locate(m.textLength, a);
    var bytes := Bytes(m, p.buffer);
    if 0 <= p.index < |bytes| then Some(bytes[p.index]) else None
  }

  function WriteByte(m: Memory, a: Word, v: Byte): Option<Memory> {
    var p := Locate(m.textLength, a);
    var bytes := Bytes(m, p.buffer);
    if 0 <= p.index < |bytes| then Some(WithBytes(m, p.buffer, bytes[p.index := v])) else None
  }

  function ReadWord(m: Memory, a: Word): Option<Word> {
    var p := Locate(m.textLength, a);
    var bytes := Bytes(m, p.buffer);
    if 0 <= p.index && p.index + 4 <= |bytes| then Some(WordOf(bytes[p.index..p.index + 4])) else None
  }

  function WriteWord(m: Memory, a: Word, w: Word): Option<Memory> {
    var p := Locate(m.textLength, a);
    var bytes := Bytes(m, p.buffer);
    if 0 <= p.index && p.index + 4 <= |bytes| then
      Some(WithBytes(m, p.buffer, Splice(bytes, p.index, BytesOf(w))))
    else None
  }

  /** Two word accesses that touch no common byte. */
  predicate Apart(textLength: nat, a: Word, b: Word) {
    var p, q := Locate(textLength, a), Locate(textLength, b);
    p.buffer != q.buffer || p.index + 4 <= q.index || q.index + 4 <= p.index
  }

  /** A written word reads back, a word apart from it does not change, and no buffer is resized. */
  lemma {:induction false} WriteThenRead(m: Memory, a: Word, w: Word, b: Word)
    requires WriteWord(m, a, w).Some?
    ensures var m' := WriteWord(m, a, w).value;
      && m'.textLength == m.textLength
      && |m'.image| == |m.image| && |m'.stack| == |m.stack| && |m'.global| == |m.global|
      && ReadWord(m', a) == Some(w)
      && (Apart(m.textLength, a, b) ==> ReadWord(m', b) == ReadWord(m, b))
  {
    var m' := WriteWord(m, a, w).value;
    var p, q := Locate(m.textLength, a), Locate(m.textLength, b);
    assert Bytes(m', p.buffer)[p.index..p.index + 4] == BytesOf(w);
    if Apart(m.textLength, a, b) && ReadWord(m, b).Some? {
      assert Bytes(m', q.buffer)[q.index..q.index + 4] == Bytes(m, q.buffer)[q.index..q.index + 4];
    }
  }

  // ----- state -----

  type Registers = r: seq<Word> | |r| == 32 witness seq(32, _ => 0)

  datatype State = State(
    regs: Registers,
    pc: Word,
    hi: Word,
    lo: Word,
    mem: Memory,
    shouldExit: bool,
    exitCode: int,
    fault: bool)

  function Advance(s: State): State {
    s.(pc := Wrap(s.pc + INSTRUCTION_SIZE))
  }

  function Faulted(s: State): State {
    s.(fault := true)
  }

  function SetRegister(s: State, d: Reg, v: Option<Word>): State {
    match v
    case Some(w) => Advance(s.(regs := s.regs[d := w]))
    case None => Faulted(s)
  }

  function Flag(b: bool): Word {
    if b then 1 else 0
  }

  /** Shifts by 32 or more are undefined. */
  function ShiftLeft(x: Word, n: nat): Option<Word> {
    if n < 32 then Some(Wrap(x * Pow2(n))) else None
  }

  function ShiftRight(x: Word, n: nat): Option<Word> {
    if n < 32 then Some(Wrap(x / Pow2(n))) else None
  }

  function Alu(op: Opcode, x: Word, y: Word): Option<Word> {
    match op
    case ADD | ADDU => Some(Wrap(x + y))
    case SUB | SUBU => Some(Wrap(x - y))
    case AND => Some(Bitwise(And, x, y))
    case OR => Some(Bitwise(Or, x, y))
    case XOR => Some(Bitwise(Xor, x, y))
    case NOR => Some(BitNor(x, y))
    case SLT | SLTU => Some(Flag(x < y))
    case SNE => Some(Flag(x != y))
    case SEQ => Some(Flag(x == y))
    case SLLV => ShiftLeft(x, y)
    case SRLV => ShiftRight(x, y)
    case _ => None
  }

  function AluImmediate(op: Opcode, x: Word, imm: Half): Option<Word> {
    match op
    case ADDI => Some(Wrap(x + SignExtend(imm)))
    case ADDIU => Some(Wrap(x + imm))
    case ANDI => Some(Bitwise(And, x, imm))
    case ORI => Some(Bitwise(Or, x, imm))
    case XORI => Some(Bitwise(Xor, x, imm))
    case SLTI | SLTIU => Some(Flag(x < imm))
    case SLL => ShiftLeft(x, imm)
    case SRL => ShiftRight(x, imm)
    case SRA =>
      if imm < 32 then Some(Bitwise(Or, Wrap(x / Pow2(imm)), BitNor(Wrap(0xFFFF_FFFF / Pow2(imm)), 0)))
      else None
    case _ => None
  }

  /** The address a pc-relative branch, load or store refers to. */
  function ResolveOffset(s: State, base: Word, off: int): Word {
    Wrap(base + off + s.pc)
  }

  function JumpIf(s: State, taken: bool, off: int): State {
    if taken then s.(pc := ResolveOffset(s, 0, off)) else Advance(s)
  }

  function Link(s: State, r: Reg): State {
    s.(regs := s.regs[r := Wrap(s.pc + INSTRUCTION_SIZE)])
  }

  function Execute(i: Instr, s: State): State {
    match i
    case InsRRR(op, d, a, b) => SetRegister(s, d, Alu(op, s.regs[a], s.regs[b]))
    case InsRRL(op, d, a, imm) => SetRegister(s, d, AluImmediate(op, s.regs[a], imm))
    case InsRRA(op, r, b, off) =>
      var address := ResolveOffset(s, s.regs[b], off);
      (match op
       case BEQ => JumpIf(s, s.regs[r] == s.regs[b], off)
       case BNE => JumpIf(s, s.regs[r] != s.regs[b], off)
       case LW => SetRegister(s, r, ReadWord(s.mem, address))
       case LB => SetRegister(s, r, ReadByte(s.mem, address))
       case SW => Store(s, WriteWord(s.mem, address, s.regs[r]))
       case SB => Store(s, WriteByte(s.mem, address, s.regs[r] % 0x100))
       case _ => Faulted(s))
    case InsRR(op, a, b) =>
      (match op
       case DIV | DIVU =>
         if s.regs[b] == 0 then Faulted(s)
         else Advance(s.(lo := s.regs[a] / s.regs[b], hi := s.regs[a] % s.regs[b]))
       case MULT | MULTU =>
         var product := Product(s.regs[a], s.regs[b]);
         Advance(s.(lo := product.0, hi := product.1))
       case JALR => var linked := Link(s, b); linked.(pc := linked.regs[a])
       case _ => Faulted(s))
    case InsRL(op, d, imm) => SetRegister(s, d, if op == LUI then Some(imm * 0x1_0000) else None)
    case InsRA(op, r, off) =>
      (match op
       case BGEZ => JumpIf(s, true, off)
       case BGEZAL => JumpIf(Link(s, RA), true, off)
       case BGTZ => JumpIf(s, s.regs[r] > 0, off)
       case BLEZ => JumpIf(s, s.regs[r] == 0, off)
       case BLTZ => Advance(s)
       case BLTZAL => Advance(Advance(s))
       case _ => Faulted(s))
    case InsR(op, r) =>
      (match op
       case JR => s.(pc := s.regs[r])
       case MFHI => SetRegister(s, r, Some(s.hi))
       case MFLO => SetRegister(s, r, Some(s.lo))
       case _ => Faulted(s))
    case InsA(op, target) =>
      (match op
       case J => s.(pc := Wrap(target))
       case JAL => Link(s, RA).(pc := Wrap(target))
       case _ => Faulted(s))
    case InsO(op) => if op == SYS then SystemCall(s) else Faulted(s)
  }

  function Store(s: State, m: Option<Memory>): State {
    match m
    case Some(mem) => Advance(s.(mem := mem))
    case None => Faulted(s)
  }

  /** The 64-bit product as (low word, high word). */
  function Product(x: Word, y: Word): (Word, Word) {
    var p := x * y;
    (Wrap(p), Wrap(p / 0x1_0000_0000))
  }

  const EXIT := 0

  function SystemCall(s: State): State {
    if s.regs[V0] == EXIT then Advance(s.(shouldExit := true, exitCode := Signed(s.regs[A0])))
    else Faulted(s)
  }

  // ----- running -----

  function Step(s: State): State {
    match ReadWord(s.mem, s.pc)
    case None => Faulted(s)
    case Some(word) =>
      match Decode(word)
      case None => Faulted(s)
      case Some(i) => Execute(i, s)
  }

  predicate Halted(s: State) {
    s.fault || s.shouldExit || s.pc >= s.mem.textLength
  }

  /** One turn of the run loop. */
  function Tick(s: State): State {
    if Halted(s) then s else Step(s)
  }

  function RunFor(s: State, n: nat): State
    decreases n
  {
    if n == 0 then s else RunFor(Tick(s), n - 1)
  }

  lemma {:induction false} RunForSum(s: State, m: nat, n: nat)
    ensures RunFor(s, m + n) == RunFor(RunFor(s, m), n)
    decreases m
  {
    if m != 0 {
      RunForSum(Tick(s), m - 1, n);
    }
  }

  lemma {:induction false} HaltedStays(s: State, n: nat)
    requires Halted(s)
    ensures RunFor(s, n) == s
  {
    if n != 0 {
      HaltedStays(s, n - 1);
    }
  }

  /** The state after `reset`; the two division registers are left as they were. */
  function ResetState(mem: Memory, hi: Word, lo: Word): State {
    var cleared: Registers := seq(32, _ => 0);
    State(cleared[SP := STACK_OFFSET + STACK_SIZE][GP := GLOBAL_OFFSET], 0, hi, lo, mem, false, 0, false)
  }
}

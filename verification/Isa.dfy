/** Instruction words: the bit-fields of InstructionData, the emission macros that fill them in,
    and the decoding the virtual machine performs. A word under construction starts from
    arbitrary bits (an uninitialised union); only the fields an opcode reads ever matter. */
module Isa {
  import opened Words

  type Reg = x: int | 0 <= x < 32

  const ZERO: Reg := 0
  const AT: Reg := 1
  const V0: Reg := 2
  const A0: Reg := 4
  const T0: Reg := 8
  const T1: Reg := 9
  const T2: Reg := 10
  const GP: Reg := 28
  const SP: Reg := 29
  const FP: Reg := 30
  const RA: Reg := 31

  const INSTRUCTION_SIZE := 4

  datatype Opcode =
    | ADD | ADDI | ADDIU | ADDU | AND | ANDI | BEQ | BGEZ | BGEZAL | BGTZ | BLEZ | BLTZ | BLTZAL
    | BNE | DIV | DIVU | J | JAL | JR | LB | LUI | LW | MFHI | MFLO | MULT | MULTU | OR | ORI | SB
    | SLL | SLLV | SLT | SLTI | SLTIU | SLTU | SNE | SEQ | SRA | SRL | SRLV | SUB | SUBU | SW | SYS
    | XOR | XORI | JALR | NOR

  /** The position of an opcode in the enumeration; six bits hold it. */
  function Number(op: Opcode): (n: nat)
    ensures n < 64 && OpcodeAt(n) == Some(op)
  {
    match op
    case ADD => 0
    case ADDI => 1
    case ADDIU => 2
    case ADDU => 3
    case AND => 4
    case ANDI => 5
    case BEQ => 6
    case BGEZ => 7
    case BGEZAL => 8
    case BGTZ => 9
    case BLEZ => 10
    case BLTZ => 11
    case BLTZAL => 12
    case BNE => 13
    case DIV => 14
    case DIVU => 15
    case J => 16
    case JAL => 17
    case JR => 18
    case LB => 19
    case LUI => 20
    case LW => 21
    case MFHI => 22
    case MFLO => 23
    case MULT => 24
    case MULTU => 25
    case OR => 26
    case ORI => 27
    case SB => 28
    case SLL => 29
    case SLLV => 30
    case SLT => 31
    case SLTI => 32
    case SLTIU => 33
    case SLTU => 34
    case SNE => 35
    case SEQ => 36
    case SRA => 37
    case SRL => 38
    case SRLV => 39
    case SUB => 40
    case SUBU => 41
    case SW => 42
    case SYS => 43
    case XOR => 44
    case XORI => 45
    case JALR => 46
    case NOR => 47
  }

  function OpcodeAt(n: nat): Option<Opcode> {
    if n == 0 then Some(ADD) else
    if n == 1 then Some(ADDI) else
    if n == 2 then Some(ADDIU) else
    if n == 3 then Some(ADDU) else
    if n == 4 then Some(AND) else
    if n == 5 then Some(ANDI) else
    if n == 6 then Some(BEQ) else
    if n == 7 then Some(BGEZ) else
    if n == 8 then Some(BGEZAL) else
    if n == 9 then Some(BGTZ) else
    if n == 10 then Some(BLEZ) else
    if n == 11 then Some(BLTZ) else
    if n == 12 then Some(BLTZAL) else
    if n == 13 then Some(BNE) else
    if n == 14 then Some(DIV) else
    if n == 15 then Some(DIVU) else
    if n == 16 then Some(J) else
    if n == 17 then Some(JAL) else
    if n == 18 then Some(JR) else
    if n == 19 then Some(LB) else
    if n == 20 then Some(LUI) else
    if n == 21 then Some(LW) else
    if n == 22 then Some(MFHI) else
    if n == 23 then Some(MFLO) else
    if n == 24 then Some(MULT) else
    if n == 25 then Some(MULTU) else
    if n == 26 then Some(OR) else
    if n == 27 then Some(ORI) else
    if n == 28 then Some(SB) else
    if n == 29 then Some(SLL) else
    if n == 30 then Some(SLLV) else
    if n == 31 then Some(SLT) else
    if n == 32 then Some(SLTI) else
    if n == 33 then Some(SLTIU) else
    if n == 34 then Some(SLTU) else
    if n == 35 then Some(SNE) else
    if n == 36 then Some(SEQ) else
    if n == 37 then Some(SRA) else
    if n == 38 then Some(SRL) else
    if n == 39 then Some(SRLV) else
    if n == 40 then Some(SUB) else
    if n == 41 then Some(SUBU) else
    if n == 42 then Some(SW) else
    if n == 43 then Some(SYS) else
    if n == 44 then Some(XOR) else
    if n == 45 then Some(XORI) else
    if n == 46 then Some(JALR) else
    if n == 47 then Some(NOR) else
    None
  }

  /** Which operand fields the virtual machine reads for an opcode. */
  datatype Form = FormRRR | FormRRL | FormRRA | FormRR | FormRL | FormRA | FormR | FormA | FormO

  function FormOf(op: Opcode): Form {
    match op
    case ADD | ADDU | AND | OR | SLLV | SLT | SLTU | SNE | SEQ | SRLV | SUB | SUBU | XOR | NOR => FormRRR
    case ADDI | ADDIU | ANDI | ORI | SLL | SLTI | SLTIU | SRA | SRL | XORI => FormRRL
    case BEQ | BNE | LB | LW | SB | SW => FormRRA
    case BGEZ | BGEZAL | BGTZ | BLEZ | BLTZ | BLTZAL => FormRA
    case DIV | DIVU | MULT | MULTU | JALR => FormRR
    case J | JAL => FormA
    case JR | MFHI | MFLO => FormR
    case LUI => FormRL
    case SYS => FormO
  }

  /** A decoded instruction: the opcode and exactly the operands it reads. */
  datatype Instr =
    | InsRRR(op: Opcode, r0: Reg, r1: Reg, r2: Reg)
    | InsRRL(op: Opcode, r0: Reg, r1: Reg, imm: Half)
    | InsRRA(op: Opcode, r0: Reg, r1: Reg, off: int)
    | InsRR(op: Opcode, r0: Reg, r1: Reg)
    | InsRL(op: Opcode, r0: Reg, imm: Half)
    | InsRA(op: Opcode, r0: Reg, off: int)
    | InsR(op: Opcode, r0: Reg)
    | InsA(op: Opcode, target: nat)
    | InsO(op: Opcode)

  // ----- bit-fields -----
  // From the top: opcode (6 bits), register0, register1, register2 (5 bits each). The immediate and
  // the address offset are the low 16 bits, the absolute address the low 26 bits.

  function Upper(w: Word): Half { w / 0x1_0000 }

  function Lower(w: Word): Half { w % 0x1_0000 }

  function Join(upper: Half, lower: Half): (w: Word)
    ensures Upper(w) == upper && Lower(w) == lower
  {
    upper * 0x1_0000 + lower
  }

  function OpcodeField(w: Word): nat { Upper(w) / 1024 }

  function Register0(w: Word): Reg { Upper(w) / 32 % 32 }

  function Register1(w: Word): Reg { Upper(w) % 32 }

  function Register2(w: Word): Reg { Lower(w) / 0x800 }

  function Immediate(w: Word): Half { Lower(w) }

  function DirectAddressAbsolute(w: Word): nat { Upper(w) % 1024 * 0x1_0000 + Lower(w) }

  function SetOpcode(w: Word, op: Opcode): (r: Word)
    ensures OpcodeField(r) == Number(op)
  {
    Join(Number(op) * 1024 + Upper(w) % 1024, Lower(w))
  }

  function SetRegister0(w: Word, v: Reg): (r: Word)
    ensures Register0(r) == v && OpcodeField(r) == OpcodeField(w)
  {
    var q, rest := Upper(w) / 1024, Upper(w) % 32;
    var upper := q * 1024 + v * 32 + rest;
    assert upper / 32 == q * 32 + v && upper / 1024 == q;
    Join(upper, Lower(w))
  }

  function SetRegister1(w: Word, v: Reg): (r: Word)
    ensures Register1(r) == v
    ensures OpcodeField(r) == OpcodeField(w) && Register0(r) == Register0(w)
    ensures Lower(r) == Lower(w)
  {
    var upper := Upper(w) / 32 * 32 + v;
    LowestField(Upper(w), v);
    Join(upper, Lower(w))
  }

  /** Replacing the lowest five bits of a half leaves the fields above as they were. */
  lemma LowestField(u: Half, v: Reg)
    ensures var r := u / 32 * 32 + v;
      0 <= r < 0x1_0000 && r % 32 == v && r / 32 == u / 32 && r / 1024 == u / 1024
  {
    var q, m := u / 1024, u / 32 % 32;
    var r := u / 32 * 32 + v;
    assert u / 32 == q * 32 + m;
    assert r == q * 1024 + (m * 32 + v);
  }

  function SetRegister2(w: Word, v: Reg): (r: Word)
    ensures Register2(r) == v && Upper(r) == Upper(w)
  {
    Join(Upper(w), v * 0x800 + Lower(w) % 0x800)
  }

  /** Both 16-bit fields, the immediate and the address offset, are the low half. */
  function SetImmediate(w: Word, v: int): (r: Word)
    ensures Immediate(r) == LowHalf(v) && Upper(r) == Upper(w)
  {
    Join(Upper(w), LowHalf(v))
  }

  function SetDirectAddressAbsolute(w: Word, v: int): (r: Word)
    ensures DirectAddressAbsolute(r) == v % 0x400_0000
    ensures OpcodeField(r) == OpcodeField(w)
  {
    var q, a := Upper(w) / 1024, v % 0x400_0000;
    var upper := q * 1024 + a / 0x1_0000;
    assert upper / 1024 == q && upper % 1024 == a / 0x1_0000;
    Join(upper, a % 0x1_0000)
  }

  // ----- decoding -----

  function Decode(w: Word): Option<Instr> {
    match OpcodeAt(OpcodeField(w))
    case None => None
    case Some(op) => Some(DecodeAs(op, w))
  }

  function DecodeAs(op: Opcode, w: Word): Instr {
    match FormOf(op)
    case FormRRR => InsRRR(op, Register0(w), Register1(w), Register2(w))
    case FormRRL => InsRRL(op, Register0(w), Register1(w), Immediate(w))
    case FormRRA => InsRRA(op, Register0(w), Register1(w), SignExtend(Immediate(w)))
    case FormRR => InsRR(op, Register0(w), Register1(w))
    case FormRL => InsRL(op, Register0(w), Immediate(w))
    case FormRA => InsRA(op, Register0(w), SignExtend(Immediate(w)))
    case FormR => InsR(op, Register0(w))
    case FormA => InsA(op, DirectAddressAbsolute(w))
    case FormO => InsO(op)
  }

  // ----- emission macros: `junk` is what the uninitialised union held -----

  function EmitRRR(op: Opcode, r0: Reg, r1: Reg, r2: Reg, junk: Word): (w: Word)
    ensures FormOf(op) == FormRRR ==> Decode(w) == Some(InsRRR(op, r0, r1, r2))
  {
    SetRegister2(SetRegister1(SetRegister0(SetOpcode(junk, op), r0), r1), r2)
  }

  /** Also used by `copy`, `clr` and the frame moves to emit a three-register `or`: the immediate
      overlaps the third register. */
  function EmitRRL(op: Opcode, r0: Reg, r1: Reg, l: int, junk: Word): (w: Word)
    ensures FormOf(op) == FormRRL ==> Decode(w) == Some(InsRRL(op, r0, r1, LowHalf(l)))
    ensures FormOf(op) == FormRRR ==> Decode(w) == Some(InsRRR(op, r0, r1, LowHalf(l) / 0x800))
  {
    SetImmediate(SetRegister1(SetRegister0(SetOpcode(junk, op), r0), r1), l)
  }

  function EmitRR(op: Opcode, r0: Reg, r1: Reg, junk: Word): (w: Word)
    ensures FormOf(op) == FormRR ==> Decode(w) == Some(InsRR(op, r0, r1))
    ensures OpcodeField(w) == Number(op) && Register0(w) == r0 && Register1(w) == r1
  {
    SetRegister1(SetRegister0(SetOpcode(junk, op), r0), r1)
  }

  function EmitRL(op: Opcode, r0: Reg, l: int, junk: Word): (w: Word)
    ensures FormOf(op) == FormRL ==> Decode(w) == Some(InsRL(op, r0, LowHalf(l)))
  {
    SetImmediate(SetRegister0(SetOpcode(junk, op), r0), l)
  }

  function EmitR(op: Opcode, r0: Reg, junk: Word): (w: Word)
    ensures FormOf(op) == FormR ==> Decode(w) == Some(InsR(op, r0))
    ensures OpcodeField(w) == Number(op) && Register0(w) == r0
  {
    SetRegister0(SetOpcode(junk, op), r0)
  }

  function EmitO(op: Opcode, junk: Word): (w: Word)
    ensures FormOf(op) == FormO ==> Decode(w) == Some(InsO(op))
    ensures OpcodeField(w) == Number(op)
  {
    SetOpcode(junk, op)
  }

  // ----- address fields, filled in now or by a later patch -----

  /** A two-register branch whose label is `distance` away. */
  function PatchBranch(w: Word, distance: int): (r: Word)
    ensures forall op | OpcodeField(w) == Number(op) && FormOf(op) == FormRRA ::
      Decode(r) == Some(InsRRA(op, Register0(w), Register1(w), SignExtend(LowHalf(distance))))
    ensures forall op | OpcodeField(w) == Number(op) && FormOf(op) == FormRA ::
      Decode(r) == Some(InsRA(op, Register0(w), SignExtend(LowHalf(distance))))
  {
    SetImmediate(w, distance)
  }

  /** A load or store: the base register and the distance are written together. */
  function PatchIndirect(w: Word, base: Reg, distance: int): (r: Word)
    ensures forall op | OpcodeField(w) == Number(op) && FormOf(op) == FormRRA ::
      Decode(r) == Some(InsRRA(op, Register0(w), base, SignExtend(LowHalf(distance))))
  {
    SetImmediate(SetRegister1(w, base), distance)
  }

  function PatchJump(w: Word, location: int): (r: Word)
    ensures forall op | OpcodeField(w) == Number(op) && FormOf(op) == FormA ::
      Decode(r) == Some(InsA(op, location % 0x400_0000))
  {
    SetDirectAddressAbsolute(w, location)
  }
}

/** Assembly programs as lists of lines, what each line asks the assembler to emit, and the two-pass
    reference: the first pass gives every line its location and every label its value, the second
    says what each location holds. */
module Assembly {
  import opened Words
  import opened Isa
  import opened Machine
  import Names

  // ----- lines -----

  /** An operand of a load, store or jump: an optional label (empty when absent), plus a literal,
      plus a register. */
  datatype Address = Address(target: string, offset: int, reg: Reg)

  datatype Item = Literal(n: int) | Reference(target: string)

  /** Literals are the integers as written; the lexer reads them into 32-bit words. */
  datatype Line =
    | Label(name: string)
    | TextDirective
    | DataDirective
    | WordDirective(items: seq<Item>)
    | ByteDirective(items: seq<Item>)
    | AsciiDirective(bytes: seq<Byte>)
    | AsciizDirective(bytes: seq<Byte>)
    | AlignDirective(x: int)
    | SpaceDirective(x: int)
    // instructions, by the shape of their operands
    | Op3(op: Opcode, d: Reg, a: Reg, b: Reg)
    | OpLit(op: Opcode, d: Reg, a: Reg, l: int)
    | Branch2(op: Opcode, a: Reg, b: Reg, target: string)
    | Branch1(op: Opcode, a: Reg, target: string)
    | Op2(op: Opcode, a: Reg, b: Reg)
    | Lui(d: Reg, l: int)
    | Access(op: Opcode, r: Reg, address: Address)
    | Op1(op: Opcode, r: Reg)
    | Jump(op: Opcode, address: Address)
    | Sys
    // pseudo-instructions
    | Copy(d: Reg, a: Reg)
    | Clr(d: Reg)
    | Nop
    | B(target: string)
    | Bal(target: string)
    | Bgt(a: Reg, b: Reg, target: string)
    | Blt(a: Reg, b: Reg, target: string)
    | Bge(a: Reg, b: Reg, target: string)
    | Ble(a: Reg, b: Reg, target: string)
    | Bgtu(a: Reg, b: Reg, target: string)
    | Beqz(a: Reg, target: string)
    | BeqLit(a: Reg, l: int, target: string)
    | BneLit(a: Reg, l: int, target: string)
    | Mult3(d: Reg, a: Reg, b: Reg)
    | Div3(d: Reg, a: Reg, b: Reg)
    | Rem(d: Reg, a: Reg, b: Reg)
    | Not(d: Reg, a: Reg)
    | Pushw(r: Reg)
    | Popw(r: Reg)
    | Pushb(r: Reg)
    | Popb(r: Reg)
    | Enter
    | Ret
    | Call(target: string)
    | Li(r: Reg, l: int)
    | La(r: Reg, target: string)

  /** The opcodes the grammar allows in each operand shape. */
  predicate WellFormed(line: Line) {
    match line
    case Op3(op, _, _, _) => FormOf(op) == FormRRR
    case OpLit(op, _, _, _) => FormOf(op) == FormRRL
    case Branch2(op, _, _, _) => op == BEQ || op == BNE
    case Branch1(op, _, _) => FormOf(op) == FormRA
    case Op2(op, _, _) => FormOf(op) == FormRR
    case Access(op, _, _) => op == LB || op == LW || op == SB || op == SW
    case Op1(op, _) => FormOf(op) == FormR
    case Jump(op, _) => FormOf(op) == FormA
    case _ => true
  }

  /** Literals are read by a function that throws outside the signed 32-bit range. */
  predicate InRange(n: int) {
    -0x8000_0000 <= n < 0x8000_0000
  }

  predicate LiteralsLex(line: Line) {
    match line
    case WordDirective(items) => ItemsLex(items)
    case ByteDirective(items) => ItemsLex(items)
    case AlignDirective(x) => InRange(x)
    case SpaceDirective(x) => InRange(x)
    case OpLit(_, _, _, l) => InRange(l)
    case Lui(_, l) => InRange(l)
    case Access(_, _, address) => InRange(address.offset)
    case Jump(_, address) => InRange(address.offset)
    case BeqLit(_, l, _) => InRange(l)
    case BneLit(_, l, _) => InRange(l)
    case Li(_, l) => InRange(l)
    case _ => true
  }

  predicate ItemsLex(items: seq<Item>) {
    forall i | 0 <= i < |items| :: items[i].Literal? ==> InRange(items[i].n)
  }

  /** The names in a line. */
  function Mentions(line: Line): set<string> {
    match line
    case Label(name) => {name}
    case WordDirective(items) => ItemNames(items)
    case ByteDirective(items) => ItemNames(items)
    case Branch2(_, _, _, target) => {target}
    case Branch1(_, _, target) => {target}
    case Access(_, _, address) => if address.target == "" then {} else {address.target}
    case Jump(_, address) => if address.target == "" then {} else {address.target}
    case B(target) => {target}
    case Bal(target) => {target}
    case Bgt(_, _, target) => {target}
    case Blt(_, _, target) => {target}
    case Bge(_, _, target) => {target}
    case Ble(_, _, target) => {target}
    case Bgtu(_, _, target) => {target}
    case Beqz(_, target) => {target}
    case BeqLit(_, _, target) => {target}
    case BneLit(_, _, target) => {target}
    case Call(target) => {target}
    case La(_, target) => {target}
    case _ => {}
  }

  function ItemNames(items: seq<Item>): set<string> {
    set i | 0 <= i < |items| && items[i].Reference? :: items[i].target
  }

  /** Every literal is in range, and no name is one of the assembler's own words. */
  predicate Lexes(line: Line) {
    LiteralsLex(line) && forall x | x in Mentions(line) :: Names.IsName(x)
  }

  // ----- emissions -----

  /** One use of an emission macro, or one datum of a directive. */
  datatype Emission =
    | PutRRR(op: Opcode, r0: Reg, r1: Reg, r2: Reg)
    | PutRRL(op: Opcode, r0: Reg, r1: Reg, l: int)
    | PutRR(op: Opcode, r0: Reg, r1: Reg)
    | PutRL(op: Opcode, r0: Reg, l: int)
    | PutR(op: Opcode, r0: Reg)
    | PutO(op: Opcode)
    | PutBranch2(op: Opcode, r0: Reg, r1: Reg, target: string)
    | PutBranch1(op: Opcode, r0: Reg, target: string)
    | PutAccess(op: Opcode, r0: Reg, address: Address)
    | PutJump(op: Opcode, target: string)
    | PutLoadAddress(r0: Reg, target: string)
    | PutWord(w: Word)
    | PutWordOf(target: string)
    | PutByte(b: Byte)
    | PutByteOf(target: string)

  predicate IsCode(e: Emission) {
    !e.PutWord? && !e.PutWordOf? && !e.PutByte? && !e.PutByteOf?
  }

  const STACK_TOP := Address("", 0, SP)

  /** What each instruction statement emits. */
  function Expand(line: Line): (es: seq<Emission>)
    ensures forall i | 0 <= i < |es| :: IsCode(es[i])
  {
    match line
    case Op3(op, d, a, b) => [PutRRR(op, d, a, b)]
    case OpLit(op, d, a, l) => [PutRRL(op, d, a, l)]
    case Branch2(op, a, b, target) => [PutBranch2(op, a, b, target)]
    case Branch1(op, a, target) => [PutBranch1(op, a, target)]
    case Op2(op, a, b) => [PutRR(op, a, b)]
    case Lui(d, l) => [PutRL(LUI, d, l)]
    case Access(op, r, address) => [PutAccess(op, r, address)]
    case Op1(op, r) => [PutR(op, r)]
    case Jump(op, address) => [PutJump(op, address.target)]
    case Sys => [PutO(SYS)]
    case Copy(d, a) => [PutRRL(OR, d, a, ZERO)]
    case Clr(d) => [PutRRL(OR, d, ZERO, ZERO)]
    case Nop => [PutRRL(SLL, ZERO, ZERO, 0)]
    case B(target) => [PutBranch2(BEQ, ZERO, ZERO, target)]
    case Bal(target) => [PutBranch1(BGEZAL, ZERO, target)]
    case Bgt(a, b, target) => [PutRRR(SLT, AT, b, a), PutBranch2(BNE, AT, ZERO, target)]
    case Blt(a, b, target) => [PutRRR(SLT, AT, a, b), PutBranch2(BNE, AT, ZERO, target)]
    case Bge(a, b, target) => [PutRRR(SLT, AT, a, b), PutBranch2(BEQ, AT, ZERO, target)]
    case Ble(a, b, target) => [PutRRR(SLT, AT, b, a), PutBranch2(BEQ, AT, ZERO, target)]
    case Bgtu(a, b, target) => [PutRRR(SLTU, AT, a, b), PutBranch2(BEQ, AT, ZERO, target)]
    case Beqz(a, target) => [PutBranch2(BEQ, a, ZERO, target)]
    case BeqLit(a, l, target) => [PutRRL(ORI, AT, ZERO, l), PutBranch2(BEQ, a, AT, target)]
    case BneLit(a, l, target) => [PutRRL(ORI, AT, ZERO, l), PutBranch2(BNE, a, AT, target)]
    case Mult3(d, a, b) => [PutRR(MULT, a, b), PutR(MFLO, d)]
    case Div3(d, a, b) => [PutRR(DIV, a, b), PutR(MFLO, d)]
    case Rem(d, a, b) => [PutRR(DIV, a, b), PutR(MFHI, d)]
    case Not(d, a) => [PutRRR(NOR, d, a, ZERO)]
    case Pushw(r) => [PutRRL(ADDI, SP, SP, -INSTRUCTION_SIZE), PutAccess(SW, r, STACK_TOP)]
    case Popw(r) => [PutAccess(LW, r, STACK_TOP), PutRRL(ADDI, SP, SP, INSTRUCTION_SIZE)]
    case Pushb(r) => [PutRRL(ADDI, SP, SP, -1), PutAccess(SB, r, STACK_TOP)]
    case Popb(r) => [PutAccess(LB, r, STACK_TOP), PutRRL(ADDI, SP, SP, 1)]
    case Enter => [
      PutRRL(ADDI, SP, SP, -INSTRUCTION_SIZE),
      PutAccess(SW, RA, STACK_TOP),
      PutRRL(ADDI, SP, SP, -INSTRUCTION_SIZE),
      PutAccess(SW, FP, STACK_TOP),
      PutRRL(OR, FP, SP, ZERO)]
    case Ret => [
      PutRRL(OR, SP, FP, ZERO),
      PutAccess(LW, FP, STACK_TOP),
      PutRRL(ADDI, SP, SP, INSTRUCTION_SIZE),
      PutAccess(LW, RA, STACK_TOP),
      PutRRL(ADDI, SP, SP, INSTRUCTION_SIZE),
      PutR(JR, RA)]
    case Call(target) => [PutJump(JAL, target)]
    case Li(r, l) =>
      var w := Wrap(l);
      if Upper(w) != 0 then [PutRL(LUI, r, Upper(w)), PutRRL(ORI, r, r, Lower(w))]
      else [PutRRL(ORI, r, ZERO, Lower(w))]
    case La(r, target) => [PutLoadAddress(r, target)]
    case _ => []
  }

  function Zeros(n: nat): (zs: seq<Emission>)
    ensures |zs| == n && forall i | 0 <= i < n :: zs[i] == PutByte(0)
  {
    seq(n, _ => PutByte(0))
  }

  function WordItem(item: Item): Emission {
    match item
    case Literal(n) => PutWord(Wrap(n))
    case Reference(target) => PutWordOf(target)
  }

  function ByteItem(item: Item): Emission {
    match item
    case Literal(n) => PutByte(n % 0x100)
    case Reference(target) => PutByteOf(target)
  }

  function WordItems(items: seq<Item>): seq<Emission> {
    seq(|items|, i requires 0 <= i < |items| => WordItem(items[i]))
  }

  function ByteItems(items: seq<Item>): seq<Emission> {
    seq(|items|, i requires 0 <= i < |items| => ByteItem(items[i]))
  }

  function PutBytes(bytes: seq<Byte>): seq<Emission> {
    seq(|bytes|, i requires 0 <= i < |bytes| => PutByte(bytes[i]))
  }

  // ----- pass one: locations -----

  datatype Segment = TextSegment | DataSegment

  /** Where the next byte goes: the current segment and how much each segment holds. */
  datatype Cursor = Cursor(segment: Segment, text: nat, data: nat)

  const ORIGIN := Cursor(TextSegment, 0, 0)

  function Location(c: Cursor): nat {
    match c.segment
    case TextSegment => c.text
    case DataSegment => DATA_SEGMENT_OFFSET + c.data
  }

  /** Bytes from a location to the next multiple of an alignment. */
  function Gap(location: nat, alignment: nat): (g: nat)
    requires alignment > 0
    ensures g < alignment && (location + g) % alignment == 0
  {
    var r := location % alignment;
    if r != 0 then RoundUp(location, alignment); alignment - r else 0
  }

  lemma RoundUp(location: nat, alignment: nat)
    requires alignment > 0 && location % alignment != 0
    ensures (location + (alignment - location % alignment)) % alignment == 0
  {
    var q := location / alignment;
    assert location + (alignment - location % alignment) == (q + 1) * alignment;
    MultipleHasNoRest(q + 1, alignment);
  }

  lemma {:induction false} MultipleHasNoRest(q: nat, n: nat)
    requires n > 0
    ensures (q * n) % n == 0
  {
    if q > 0 {
      MultipleHasNoRest(q - 1, n);
      assert q * n == (q - 1) * n + n;
      AddOnce((q - 1) * n, n);
    }
  }

  lemma AddOnce(x: nat, n: nat)
    requires n > 0
    ensures (x + n) % n == x % n
  {
    var q, r := x / n, x % n;
    assert x + n == (q + 1) * n + r;
    DivisionIsUnique(x + n, n, q + 1, r);
  }

  lemma DivisionIsUnique(x: nat, n: nat, q: nat, r: nat)
    requires n > 0 && r < n && x == q * n + r
    ensures x % n == r
  {
    var d := x / n - q;
    assert (x / n) * n + x % n == x;
    assert d * n == (x / n) * n - q * n;
    if d != 0 {
      NoMultipleBetween(d, n);
    }
  }

  lemma NoMultipleBetween(d: int, n: int)
    requires n > 0 && d != 0
    ensures d * n >= n || -n >= d * n
  {
    if d >= 1 {
      assert (d - 1) * n >= 0;
    } else {
      assert (-d - 1) * n >= 0;
    }
  }

  /** `.word` aligns before its label and its data; nothing else moves ahead of its label. */
  function Lead(line: Line, c: Cursor): nat {
    if line.WordDirective? then Gap(Location(c), INSTRUCTION_SIZE) else 0
  }

  /** The location a label in front of this line gets. */
  function Start(line: Line, c: Cursor): nat {
    Location(c) + Lead(line, c)
  }

  function Emissions(line: Line, c: Cursor): seq<Emission> {
    match line
    case WordDirective(items) => Zeros(Lead(line, c)) + WordItems(items)
    case ByteDirective(items) => ByteItems(items)
    case AsciiDirective(bytes) => PutBytes(bytes)
    case AsciizDirective(bytes) => PutBytes(bytes) + [PutByte(0)]
    case AlignDirective(x) => Zeros(Gap(Location(c), Pow2(Wrap(x))))
    case SpaceDirective(x) => Zeros(Wrap(x))
    case _ => Expand(line)
  }

  function Size(e: Emission): nat {
    match e
    case PutLoadAddress(_, _) => 8
    case PutByte(_) | PutByteOf(_) => 1
    case _ => 4
  }

  function TotalSize(es: seq<Emission>): nat {
    if es == [] then 0 else Size(es[0]) + TotalSize(es[1..])
  }

  function Grow(c: Cursor, n: nat): Cursor {
    match c.segment
    case TextSegment => c.(text := c.text + n)
    case DataSegment => c.(data := c.data + n)
  }

  function Next(line: Line, c: Cursor): Cursor {
    match line
    case TextDirective => c.(segment := TextSegment)
    case DataDirective => c.(segment := DataSegment)
    case _ => Grow(c, TotalSize(Emissions(line, c)))
  }

  function End(lines: seq<Line>, c: Cursor): Cursor {
    if lines == [] then c else End(lines[1..], Next(lines[0], c))
  }

  lemma {:induction false} EndGrows(lines: seq<Line>, c: Cursor)
    ensures c.text <= End(lines, c).text && c.data <= End(lines, c).data
  {
    hide Emissions;
    if lines != [] {
      EndGrows(lines[1..], Next(lines[0], c));
    }
  }

  lemma {:induction false} ZerosSize(n: nat)
    ensures TotalSize(Zeros(n)) == n
  {
    if n > 0 {
      assert Zeros(n)[1..] == Zeros(n - 1);
      ZerosSize(n - 1);
    }
  }

  predicate IsDatum(line: Line) {
    || line.WordDirective? || line.ByteDirective? || line.AsciiDirective? || line.AsciizDirective?
    || line.AlignDirective? || line.SpaceDirective?
  }

  /** Data directives occur in the data segment only. */
  predicate Proper(lines: seq<Line>, c: Cursor) {
    lines == []
    || ((IsDatum(lines[0]) ==> c.segment.DataSegment?) && Proper(lines[1..], Next(lines[0], c)))
  }

  datatype Definition = Definition(name: string, location: nat)

  function Bind(names: seq<string>, location: nat): seq<Definition> {
    seq(|names|, i requires 0 <= i < |names| => Definition(names[i], location))
  }

  /** The label definitions in the order they are made: a label waits for the statement behind it,
      and of several waiting labels the innermost is defined first. */
  function Definitions(lines: seq<Line>, c: Cursor, waiting: seq<string>): seq<Definition> {
    if lines == [] then Bind(waiting, Location(c))
    else if lines[0].Label? then Definitions(lines[1..], c, [lines[0].name] + waiting)
    else Bind(waiting, Start(lines[0], c)) + Definitions(lines[1..], Next(lines[0], c), [])
  }

  type Environment = map<string, nat>

  function EnvironmentOf(ds: seq<Definition>): Environment {
    if ds == [] then map[]
    else EnvironmentOf(ds[..|ds| - 1])[ds[|ds| - 1].name := ds[|ds| - 1].location]
  }

  predicate Distinct(ds: seq<Definition>) {
    forall i, j | 0 <= i < j < |ds| :: ds[i].name != ds[j].name
  }

  /** The label table of a whole program. */
  function Labels(lines: seq<Line>): Environment {
    EnvironmentOf(Definitions(lines, ORIGIN, []))
  }

  // ----- pass two: contents -----

  datatype Slot = Slot(location: nat, emission: Emission)

  function Arrange(es: seq<Emission>, location: nat): seq<Slot> {
    if es == [] then []
    else [Slot(location, es[0])] + Arrange(es[1..], location + Size(es[0]))
  }

  function Slots(lines: seq<Line>, c: Cursor): seq<Slot> {
    if lines == [] then []
    else Arrange(Emissions(lines[0], c), Location(c)) + Slots(lines[1..], Next(lines[0], c))
  }

  /** The label an emission cannot do without. */
  function Needs(e: Emission): Option<string> {
    match e
    case PutBranch2(_, _, _, target) => Some(target)
    case PutBranch1(_, _, target) => Some(target)
    case PutJump(_, target) => Some(target)
    case PutLoadAddress(_, target) => Some(target)
    case PutWordOf(target) => Some(target)
    case PutByteOf(target) => Some(target)
    case PutAccess(_, _, address) => if address.target == "" then None else Some(address.target)
    case _ => None
  }

  predicate Resolvable(e: Emission, env: Environment) {
    Needs(e).Some? ==> Needs(e).value in env
  }

  function ValueOf(target: string, env: Environment): nat {
    if target in env then env[target] else 0
  }

  /** The address operand as a 16-bit distance from the instruction. */
  function Distance(target: int, location: int): int {
    SignExtend(LowHalf(target - location))
  }

  function AddressBase(address: Address, env: Environment): nat {
    if address.target == "" then 0 else ValueOf(address.target, env)
  }

  /** The instructions the virtual machine must decode at a location. */
  function Instructions(e: Emission, location: nat, env: Environment): seq<Instr> {
    match e
    case PutRRR(op, r0, r1, r2) => [InsRRR(op, r0, r1, r2)]
    case PutRRL(op, r0, r1, l) =>
      if FormOf(op) == FormRRR then [InsRRR(op, r0, r1, LowHalf(l) / 0x800)]
      else [InsRRL(op, r0, r1, LowHalf(l))]
    case PutRR(op, r0, r1) => [InsRR(op, r0, r1)]
    case PutRL(op, r0, l) => [InsRL(op, r0, LowHalf(l))]
    case PutR(op, r0) => [InsR(op, r0)]
    case PutO(op) => [InsO(op)]
    case PutBranch2(op, r0, r1, target) => [InsRRA(op, r0, r1, Distance(ValueOf(target, env), location))]
    case PutBranch1(op, r0, target) => [InsRA(op, r0, Distance(ValueOf(target, env), location))]
    case PutAccess(op, r0, address) =>
      [InsRRA(op, r0, address.reg, Distance(AddressBase(address, env) + address.offset, location))]
    case PutJump(op, target) => [InsA(op, ValueOf(target, env) % 0x400_0000)]
    case PutLoadAddress(r0, target) =>
      var w := Wrap(ValueOf(target, env));
      [InsRL(LUI, r0, Upper(w)), InsRRL(ORI, r0, r0, Lower(w))]
    case _ => []
  }

  /** The contents of the two segments. */
  datatype Segments = Segments(text: seq<Byte>, data: seq<Byte>)

  function ByteIn(g: Segments, location: int): Option<Byte> {
    if 0 <= location < DATA_SEGMENT_OFFSET then
      if location < |g.text| then Some(g.text[location]) else None
    else
      var i := location - DATA_SEGMENT_OFFSET;
      if 0 <= i < |g.data| then Some(g.data[i]) else None
  }

  function WordIn(g: Segments, location: int): Option<Word> {
    if 0 <= location < DATA_SEGMENT_OFFSET then
      if location + 4 <= |g.text| then Some(WordOf(g.text[location..location + 4])) else None
    else
      var i := location - DATA_SEGMENT_OFFSET;
      if 0 <= i && i + 4 <= |g.data| then Some(WordOf(g.data[i..i + 4])) else None
  }

  predicate Decodes(g: Segments, location: int, i: Instr) {
    WordIn(g, location).Some? && Decode(WordIn(g, location).value) == Some(i)
  }

  /** The segments hold at a slot what the second pass puts there. */
  predicate Holds(g: Segments, s: Slot, env: Environment) {
    && Resolvable(s.emission, env)
    && match s.emission
       case PutWord(w) => WordIn(g, s.location) == Some(w)
       case PutWordOf(target) => WordIn(g, s.location) == Some(Wrap(env[target]))
       case PutByte(b) => ByteIn(g, s.location) == Some(b)
       case PutByteOf(target) => ByteIn(g, s.location) == Some(env[target] % 0x100)
       case e =>
         var code := Instructions(e, s.location, env);
         forall j | 0 <= j < |code| :: Decodes(g, s.location + 4 * j, code[j])
  }

  /** The segments are an assembly of the program. */
  ghost predicate Realises(g: Segments, lines: seq<Line>) {
    && |g.text| == End(lines, ORIGIN).text
    && |g.data| == End(lines, ORIGIN).data
    && forall s | s in Slots(lines, ORIGIN) :: Holds(g, s, Labels(lines))
  }
}

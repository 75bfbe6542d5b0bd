/** Bytes and words of the same memory: a word is kept least significant byte first, in the machine, in the
    assembler's segments and in the file. */
module MemoryLaws {
  import opened Words
  import opened Isa
  import opened Machine
  import opened Assembly
  import opened Builder
  import opened Loading
  import opened InstructionLaws

  /** The byte of weight 256^k. */
  function ByteOf(w: int, k: nat): int
    requires k < 4
  {
    match k
    case 0 => w % 0x100
    case 1 => w / 0x100 % 0x100
    case 2 => w / 0x1_0000 % 0x100
    case _ => w / 0x100_0000 % 0x100
  }

  lemma {:induction false} BytesInOrder(b: seq<Byte>, k: nat)
    requires |b| == 4 && k < 4
    ensures b[k] == ByteOf(WordOf(b), k)
  {
    var b0: int, b1: int, b2: int, b3: int := b[0], b[1], b[2], b[3];
    FourBytes(b0, b1, b2, b3);
  }

  lemma {:induction false} FourBytes(b0: int, b1: int, b2: int, b3: int)
    requires 0 <= b0 < 0x100 && 0 <= b1 < 0x100 && 0 <= b2 < 0x100 && 0 <= b3 < 0x100
    ensures var w := b0 + 0x100 * b1 + 0x1_0000 * b2 + 0x100_0000 * b3;
      w % 0x100 == b0 && w / 0x100 % 0x100 == b1 && w / 0x1_0000 % 0x100 == b2 && w / 0x100_0000 % 0x100 == b3
  {
    var w := b0 + 0x100 * b1 + 0x1_0000 * b2 + 0x100_0000 * b3;
    assert w / 0x100 == b1 + 0x100 * b2 + 0x1_0000 * b3;
    assert w / 0x1_0000 == b2 + 0x100 * b3;
    assert w / 0x100_0000 == b3;
  }

  lemma {:induction false} BytesWrittenInOrder(w: Word, k: nat)
    requires k < 4
    ensures BytesOf(w)[k] == ByteOf(w, k)
  {
    hide BytesOf, ByteOf, WordOf;
    BytesInOrder(BytesOf(w), k);
  }

  // ----- the machine's memory -----

  /** Four addresses in a row in the same part of the memory map. */
  predicate InOnePart(a: int) {
    || a + 3 < DATA_SEGMENT_OFFSET
    || DATA_SEGMENT_OFFSET <= a < STACK_OFFSET - 3
    || STACK_OFFSET <= a < GLOBAL_OFFSET - 3
    || GLOBAL_OFFSET <= a < 0x1_0000_0000 - 3
  }

  lemma {:induction false} NextPlaces(textLength: nat, a: Word, k: nat)
    requires InOnePart(a) && k < 4
    ensures a + k < 0x1_0000_0000
    ensures var p := Locate(textLength, a); Locate(textLength, a + k) == Place(p.buffer, p.index + k)
  {
  }

  /** The bytes of a word that is read, least significant first. */
  lemma {:induction false} ReadLittleEndian(m: Memory, a: Word, k: nat)
    requires ReadWord(m, a).Some? && k < 4
    ensures var p := Locate(m.textLength, a);
      && 0 <= p.index && p.index + 4 <= |Bytes(m, p.buffer)|
      && Bytes(m, p.buffer)[p.index + k] == ByteOf(ReadWord(m, a).value, k)
    ensures InOnePart(a) ==> a + k < 0x1_0000_0000 && ReadByte(m, a + k) == Some(ByteOf(ReadWord(m, a).value, k))
  {
    hide WordOf, ByteOf;
    var p := Locate(m.textLength, a);
    BytesInOrder(Bytes(m, p.buffer)[p.index..p.index + 4], k);
    if InOnePart(a) {
      NextPlaces(m.textLength, a, k);
    }
  }

  /** After a word has been written its bytes are there, least significant first. */
  lemma {:induction false} WriteLittleEndian(m: Memory, a: Word, w: Word, k: nat)
    requires WriteWord(m, a, w).Some? && InOnePart(a) && k < 4
    ensures a + k < 0x1_0000_0000 && ReadByte(WriteWord(m, a, w).value, a + k) == Some(ByteOf(w, k))
  {
    hide WordOf, ByteOf, BytesOf, ReadWord, WriteWord, ReadByte;
    WriteThenRead(m, a, w, a);
    ReadLittleEndian(WriteWord(m, a, w).value, a, k);
  }

  /** And no byte outside the word has changed. */
  lemma {:induction false} WriteKeepsBytes(m: Memory, a: Word, w: Word, b: Word)
    requires WriteWord(m, a, w).Some?
    requires var p, q := Locate(m.textLength, a), Locate(m.textLength, b);
      p.buffer != q.buffer || q.index < p.index || p.index + 4 <= q.index
    ensures ReadByte(WriteWord(m, a, w).value, b) == ReadByte(m, b)
  {
    hide BytesOf;
  }

  /** A written byte reads back, and every other byte is as it was. */
  lemma {:induction false} WriteByteThenRead(m: Memory, a: Word, v: Byte, b: Word)
    requires WriteByte(m, a, v).Some?
    ensures ReadByte(WriteByte(m, a, v).value, b)
      == if Locate(m.textLength, a) == Locate(m.textLength, b) then Some(v) else ReadByte(m, b)
  {
  }

  // ----- loads and stores -----

  /** A load from where the store before it went: the distance is shorter by the one instruction between. */
  lemma {:induction false} SamePlace(s: State, t: State, base: Word, off: int)
    requires t.pc == Wrap(s.pc + 4)
    ensures ResolveOffset(t, base, off - 4) == ResolveOffset(s, base, off)
  {
    SameWrap(base as int, off, s.pc as int);
  }

  lemma {:induction false} SameWrap(base: int, off: int, pc: int)
    ensures Wrap(base + (off - 4) + Wrap(pc + 4)) == Wrap(base + off + pc)
  {
    var q := (pc + 4) / 0x1_0000_0000;
    assert base + (off - 4) + Wrap(pc + 4) == base + off + pc - 0x1_0000_0000 * q;
  }

  /** `sw` changes memory only, and `lw` from there gives the word back. */
  lemma {:induction false} WordThrough(s: State, r: Reg, b: Reg, d: Reg, off: int)
    ensures var t := Execute(InsRRA(SW, r, b, off), s);
      if t.fault && !s.fault then t == s.(fault := true)
      else if t.fault then true
      else
        var u := Execute(InsRRA(LW, d, b, off - 4), t);
        t == s.(mem := t.mem, pc := Wrap(s.pc + 4)) && OnlyRegister(t, u, d) && u.regs[d] == s.regs[r]
  {
    hide ReadWord, WriteWord, Wrap;
    var a := ResolveOffset(s, s.regs[b], off);
    var t := Execute(InsRRA(SW, r, b, off), s);
    if !t.fault {
      SamePlace(s, t, s.regs[b], off);
      WriteThenRead(s.mem, a, s.regs[r], a);
    }
  }

  /** `sb` changes one byte of memory only, and `lb` from there gives the register's low byte, not extended. */
  lemma {:induction false} ByteThrough(s: State, r: Reg, b: Reg, d: Reg, off: int)
    ensures var t := Execute(InsRRA(SB, r, b, off), s);
      if t.fault && !s.fault then t == s.(fault := true)
      else if t.fault then true
      else
        var u := Execute(InsRRA(LB, d, b, off - 4), t);
        t == s.(mem := t.mem, pc := Wrap(s.pc + 4)) && OnlyRegister(t, u, d) && u.regs[d] == s.regs[r] % 0x100
  {
    hide ReadByte, WriteByte, Wrap;
    var a := ResolveOffset(s, s.regs[b], off);
    var t := Execute(InsRRA(SB, r, b, off), s);
    if !t.fault {
      SamePlace(s, t, s.regs[b], off);
      WriteByteThenRead(s.mem, a, s.regs[r] % 0x100, a);
    }
  }

  /** `sw` and then `lb` at the same address: the lowest byte; so the machine is little-endian. */
  lemma {:induction false} LowByteFirst(s: State, r: Reg, b: Reg, d: Reg, off: int)
    requires !s.fault && InOnePart(ResolveOffset(s, s.regs[b], off))
    ensures var t := Execute(InsRRA(SW, r, b, off), s);
      !t.fault ==> Execute(InsRRA(LB, d, b, off - 4), t).regs[d] == s.regs[r] % 0x100
  {
    hide ReadByte, WriteWord, Wrap, InOnePart;
    var a := ResolveOffset(s, s.regs[b], off);
    var t := Execute(InsRRA(SW, r, b, off), s);
    if !t.fault {
      SamePlace(s, t, s.regs[b], off);
      WriteLittleEndian(s.mem, a, s.regs[r], 0);
    }
  }

  // ----- the segments and the file -----

  lemma {:induction false} SegmentsLittleEndian(g: Segments, location: nat, k: nat)
    requires WordIn(g, location).Some? && |g.text| <= DATA_SEGMENT_OFFSET && k < 4
    ensures ByteIn(g, location + k) == Some(ByteOf(WordIn(g, location).value, k))
  {
    hide WordOf, ByteOf;
    if location < DATA_SEGMENT_OFFSET {
      BytesInOrder(g.text[location..location + 4], k);
    } else {
      var i := location - DATA_SEGMENT_OFFSET;
      BytesInOrder(g.data[i..i + 4], k);
    }
  }

  /** The four words of the header: where text begins, its length, where data begins, its length. */
  function HeaderWord(g: Segments, j: nat): int
    requires j < 4
  {
    match j
    case 0 => 16
    case 1 => |g.text|
    case 2 => 16 + |g.text|
    case _ => |g.data|
  }

  /** Every byte of the file. */
  lemma {:induction false} FileBytes(g: Segments, j: nat, k: nat, i: nat)
    requires |g.text| < DATA_SEGMENT_OFFSET && |g.data| < 0x1_0000_0000 && j < 4 && k < 4
    ensures |FileOf(g)| == 16 + |g.text| + |g.data|
    ensures FileOf(g)[4 * j + k] == ByteOf(HeaderWord(g, j), k)
    ensures i < |g.text| ==> FileOf(g)[HeaderWord(g, 0) + i] == g.text[i]
    ensures i < |g.data| ==> FileOf(g)[HeaderWord(g, 2) + i] == g.data[i]
  {
    hide BytesOf, ByteOf, Wrap;
    FileParts(g, |g.text|, |g.data|);
    BytesWrittenInOrder(HEADER_SIZE, k);
    BytesWrittenInOrder(|g.text|, k);
    BytesWrittenInOrder(HEADER_SIZE + |g.text|, k);
    BytesWrittenInOrder(|g.data|, k);
    FileAt(BytesOf(HEADER_SIZE), BytesOf(|g.text|), BytesOf(HEADER_SIZE + |g.text|), BytesOf(|g.data|), g, k, i);
  }

  lemma {:induction false} FileAt(h0: seq<Byte>, h1: seq<Byte>, h2: seq<Byte>, h3: seq<Byte>, g: Segments, k: nat,
                                  i: nat)
    requires |h0| == |h1| == |h2| == |h3| == 4 && k < 4
    ensures var file := h0 + h1 + h2 + h3 + g.text + g.data;
      && |file| == 16 + |g.text| + |g.data|
      && file[k] == h0[k] && file[4 + k] == h1[k] && file[8 + k] == h2[k] && file[12 + k] == h3[k]
      && (i < |g.text| ==> file[16 + i] == g.text[i])
      && (i < |g.data| ==> file[16 + |g.text| + i] == g.data[i])
  {
  }

  /** The lengths as the loader reads them from the second and the fourth word of any file. */
  lemma {:induction false} LengthsRead(before: seq<Byte>, file: seq<Byte>, stack: seq<Byte>, global: seq<Byte>, k: nat)
    requires |file| >= 16 && k < 4
    ensures var m := Reopened(before, file, stack, global);
      && file[4 + k] == ByteOf(m.textLength, k)
      && exists n: Word :: file[12 + k] == ByteOf(n, k) && |m.image| == (m.textLength + n) % 0x1_0000_0000
  {
    hide WordOf, ByteOf;
    BytesInOrder(file[4..8], k);
    BytesInOrder(file[12..16], k);
    var n := WordOf(file[12..16]);
    assert file[12 + k] == ByteOf(n, k);
  }

  // ----- the memory map -----

  /** Text from address 0, data from 0x10010000 behind it in the same image, the call stack's area from
      0x80000000, the operand stack's from 0xFFFF0000; nothing outside of them can be read. */
  lemma {:induction false} MemoryMap(m: Memory, i: nat)
    ensures i < 0x1001_0000 ==> ReadByte(m, i) == if i < |m.image| then Some(m.image[i]) else None
    ensures i < 0x6FFF_0000 ==>
      ReadByte(m, 0x1001_0000 + i)
      == if i + m.textLength < |m.image| then Some(m.image[i + m.textLength]) else None
    ensures i < 0x7FFF_0000 ==> ReadByte(m, 0x8000_0000 + i) == if i < |m.stack| then Some(m.stack[i]) else None
    ensures i < 0x1_0000 ==> ReadByte(m, 0xFFFF_0000 + i) == if i < |m.global| then Some(m.global[i]) else None
  {
  }

  /** What a program's vector holds after reading a file over it: the file's bytes, then what was there, then
      zeros. */
  lemma {:induction false} ReadOver(before: seq<Byte>, size: nat, input: seq<Byte>, i: nat)
    requires i < size
    ensures ReadInto(before, size, input)[i]
      == if i < |input| then input[i] else if i < |before| then before[i] else 0
  {
  }
}

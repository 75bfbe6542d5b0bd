/** The one-pass assembler: it emits while it reads, resolves what it can, queues the rest, and patches
    the queue at the end. */
module Assembler {
  import opened Words
  import opened Isa
  import opened Machine
  import opened Assembly
  import opened Builder
  import opened Backpatching

  datatype Error = Unreadable | Redefined(name: string) | Unresolved(name: string)

  datatype Outcome = Assembled(file: seq<Byte>) | Failed(error: Error)

  datatype Resolution = Resolved(address: AddressData) | Deferred | Unresolvable(name: string)

  // ----- counting along a list -----

  lemma {:induction false} ArrangeAppend(a: seq<Emission>, b: seq<Emission>, location: nat)
    ensures Arrange(a + b, location) == Arrange(a, location) + Arrange(b, location + TotalSize(a))
    ensures TotalSize(a + b) == TotalSize(a) + TotalSize(b)
  {
    hide Size;
    if a == [] {
      assert a + b == b;
    } else {
      var next := location + Size(a[0]);
      assert a + b == [a[0]] + (a[1..] + b) && (a + b)[1..] == a[1..] + b;
      ArrangeAppend(a[1..], b, next);
      var s := [Slot(location, a[0])];
      assert s + (Arrange(a[1..], next) + Arrange(b, next + TotalSize(a[1..])))
        == (s + Arrange(a[1..], next)) + Arrange(b, next + TotalSize(a[1..]));
    }
  }

  lemma ArrangeNext(es: seq<Emission>, j: nat, location: nat)
    requires j < |es|
    ensures Arrange(es[..j + 1], location) == Arrange(es[..j], location) + [Slot(location + TotalSize(es[..j]), es[j])]
    ensures TotalSize(es[..j + 1]) == TotalSize(es[..j]) + Size(es[j])
  {
    hide Size;
    assert es[..j + 1] == es[..j] + [es[j]];
    ArrangeAppend(es[..j], [es[j]], location);
    assert [es[j]][1..] == [];
  }

  lemma {:induction false} PrefixSize(es: seq<Emission>, j: nat)
    requires j <= |es|
    ensures TotalSize(es[..j]) <= TotalSize(es)
  {
    assert es == es[..j] + es[j..];
    ArrangeAppend(es[..j], es[j..], 0);
  }

  lemma ArrangeNothing(es: seq<Emission>, location: nat)
    ensures Arrange(es[..0], location) == [] && TotalSize(es[..0]) == 0
  {
  }

  // ----- writing bytes -----

  /** Plain bytes at the end of the data segment need no patch. */
  lemma {:induction false} PartialBytes(g: Segments, slots: seq<Slot>, env: Environment, queue: seq<AddressData>,
                                        c: Cursor, bytes: seq<Byte>)
    requires Partial(g, slots, env, queue, c) && c.segment.DataSegment? && Fits(Grow(c, |bytes|))
    ensures TotalSize(PutBytes(bytes)) == |bytes|
    ensures Partial(Append(g, DataSegment, bytes), slots + Arrange(PutBytes(bytes), Location(c)), env, queue,
                    Grow(c, |bytes|))
    decreases |bytes|
  {
    hide Partial, Serves, Holds, TotalSize;
    if bytes == [] {
      NothingSized();
      assert slots + [] == slots && g.data + [] == g.data;
    } else {
      var n := |bytes| - 1;
      var init, last := bytes[..n], bytes[n];
      PartialBytes(g, slots, env, queue, c, init);
      var g1, slots1, c1 := Append(g, DataSegment, init), slots + Arrange(PutBytes(init), Location(c)), Grow(c, n);
      ByteAtEnd(g, slots, env, queue, c, init, last);
      PartialAppend(g1, slots1, env, queue, c1, PutByte(last), [last], []);
      assert PutBytes(bytes) == PutBytes(init) + [PutByte(last)];
      ArrangeAppend(PutBytes(init), [PutByte(last)], Location(c));
      ByteSized(last, Location(c1));
      assert queue + [] == queue;
      assert (g.data + init) + [last] == g.data + bytes;
      assert slots1 + [Slot(Location(c1), PutByte(last))] == slots + Arrange(PutBytes(bytes), Location(c));
    }
  }

  lemma NothingSized()
    ensures TotalSize([]) == 0
  {
  }

  lemma ByteSized(b: Byte, location: nat)
    ensures TotalSize([PutByte(b)]) == 1 && Arrange([PutByte(b)], location) == [Slot(location, PutByte(b))]
    ensures Size(PutByte(b)) == 1
  {
    assert [PutByte(b)][1..] == [];
  }

  lemma ByteAtEnd(g: Segments, slots: seq<Slot>, env: Environment, queue: seq<AddressData>, c: Cursor,
                  init: seq<Byte>, last: Byte)
    requires Partial(g, slots, env, queue, c) && c.segment.DataSegment?
    ensures Holds(Append(Append(g, DataSegment, init), DataSegment, [last]),
                  Slot(Location(Grow(c, |init|)), PutByte(last)), env)
  {
    assert (g.data + init + [last])[|g.data| + |init|] == last;
  }

  lemma WordAtEnd(g: Segments, c: Cursor, w: Word)
    requires |g.text| == c.text && |g.data| == c.data && Fits(Grow(c, 4))
    ensures WordIn(Append(g, c.segment, BytesOf(w)), Location(c)) == Some(w)
  {
  }

  /** A word that decodes to the reference instruction is right, whatever its unread bits are. */
  lemma CodeHolds(g: Segments, c: Cursor, e: Emission, word: Word, env: Environment)
    requires |g.text| == c.text && |g.data| == c.data && Fits(Grow(c, 4))
    requires IsCode(e) && Size(e) == 4 && Needs(e) == None
    requires Decode(word) == Some(Instructions(e, Location(c), env)[0])
    ensures Holds(Append(g, c.segment, BytesOf(word)), Slot(Location(c), e), env)
  {
    hide Decode, Instructions, WordIn, ByteIn, BytesOf, Append;
    WordAtEnd(g, c, word);
    CodeSize(e, Location(c), env);
    assert Decodes(Append(g, c.segment, BytesOf(word)), Location(c) + 4 * 0, Instructions(e, Location(c), env)[0]);
  }

  lemma PutWordHolds(g: Segments, c: Cursor, word: Word, env: Environment)
    requires |g.text| == c.text && |g.data| == c.data && Fits(Grow(c, 4))
    ensures Holds(Append(g, c.segment, BytesOf(word)), Slot(Location(c), PutWord(word)), env)
  {
    WordAtEnd(g, c, word);
  }

  lemma PartialSizes(g: Segments, slots: seq<Slot>, env: Environment, queue: seq<AddressData>, c: Cursor)
    requires Partial(g, slots, env, queue, c)
    ensures |g.text| == c.text && |g.data| == c.data && Fits(c)
  {
  }

  lemma FormsOfLoad()
    ensures FormOf(LUI) == FormRL && FormOf(ORI) == FormRRL
  {
  }

  predicate AllFormed(es: seq<Emission>) {
    forall i | 0 <= i < |es| :: Formed(es[i])
  }

  /** Every instruction statement emits its opcodes in their own forms. */
  lemma ExpandFormed(line: Line)
    requires WellFormed(line)
    ensures AllFormed(Expand(line))
  {
    PseudoForms();
    hide FormOf, Number, Upper, Lower;
  }

  lemma PseudoForms()
    ensures FormOf(OR) == FormOf(SLT) == FormOf(SLTU) == FormOf(NOR) == FormRRR
    ensures FormOf(ADDI) == FormOf(ORI) == FormOf(SLL) == FormRRL
    ensures FormOf(BEQ) == FormOf(BNE) == FormOf(LB) == FormOf(LW) == FormOf(SB) == FormOf(SW) == FormRRA
    ensures FormOf(MULT) == FormOf(DIV) == FormRR && FormOf(LUI) == FormRL && FormOf(BGEZAL) == FormRA
    ensures FormOf(MFLO) == FormOf(MFHI) == FormOf(JR) == FormR && FormOf(JAL) == FormA && FormOf(SYS) == FormO
  {
    ArithmeticForms();
    MemoryForms();
    OtherForms();
    hide FormOf;
  }

  lemma ArithmeticForms()
    ensures FormOf(OR) == FormOf(SLT) == FormOf(SLTU) == FormOf(NOR) == FormRRR
    ensures FormOf(ADDI) == FormOf(ORI) == FormOf(SLL) == FormRRL
  {
  }

  lemma MemoryForms()
    ensures FormOf(BEQ) == FormOf(BNE) == FormOf(LB) == FormOf(LW) == FormOf(SB) == FormOf(SW) == FormRRA
  {
  }

  lemma OtherForms()
    ensures FormOf(MULT) == FormOf(DIV) == FormRR && FormOf(LUI) == FormRL && FormOf(BGEZAL) == FormRA
    ensures FormOf(MFLO) == FormOf(MFHI) == FormOf(JR) == FormR && FormOf(JAL) == FormA && FormOf(SYS) == FormO
  {
  }

  lemma CodeSizes(e: Emission)
    ensures Size(e) == 1 <==> e.PutByte? || e.PutByteOf?
    ensures IsCode(e) ==> Size(e) >= 4
  {
  }

  lemma InstructionLine(line: Line, c: Cursor)
    requires !line.Label? && !line.TextDirective? && !line.DataDirective? && !IsDatum(line)
    ensures Emissions(line, c) == Expand(line) && Next(line, c) == Grow(c, TotalSize(Expand(line)))
  {
    hide Expand;
  }

  lemma WithinAll(slots: seq<Slot>, c: Cursor, s: Slot)
    requires Tracked(slots, c) && s in slots
    ensures Within(s, c)
  {
  }

  /** The slot a queue entry serves, whose bytes are there to be patched. */
  lemma {:induction false} ServedSlot(slots: seq<Slot>, queue: seq<AddressData>, k: nat, c: Cursor, g: Segments)
    returns (s: Slot)
    requires k < |queue| && Queued(slots, queue) && Tracked(slots, c)
    requires |g.text| == c.text && |g.data| == c.data && Fits(c)
    ensures s in slots && Serves(queue[k], s) && Within(s, c)
    ensures InPlace(g, queue[k].position, Size(s.emission)) && queue[k].position < END
    ensures s.emission.PutByteOf? ==> queue[k].position >= DATA_SEGMENT_OFFSET
  {
    var q := queue[k];
    hide Serves;
    var i := QueuedAt(slots, queue, k);
    s := slots[i];
    assert queue[k].position == s.location by { ServesThere(queue[k], s); }
    assert Within(s, c);
  }

  /** What kind of address a slot is served by follows from its size. */
  lemma KindOfSlot(a: AddressData, s: Slot)
    requires Serves(a, s)
    ensures a.position == s.location
    ensures Size(s.emission) == match a.kind
      case DirectAddressAbsoluteByte => 1
      case DirectAddressAbsoluteLoad => 8
      case _ => 4
    ensures a.kind == DirectAddressAbsoluteByte <==> s.emission.PutByteOf?
  {
  }

  lemma FilledKeepsPlace(a: AddressData, env: Environment)
    requires Fill(a, env).Some?
    ensures Fill(a, env).value.position == a.position && Fill(a, env).value.kind == a.kind
  {
  }

  lemma ServesThere(a: AddressData, s: Slot)
    requires Serves(a, s)
    ensures a.position == s.location
  {
  }

  /** A patch inside one slot does not show in any slot apart from it. */
  lemma OthersAgree(g: Segments, location: nat, chunk: seq<Byte>, s: Slot, slots: seq<Slot>, c: Cursor)
    requires |g.text| == c.text && |g.data| == c.data && Fits(c) && Within(s, c) && Tracked(slots, c)
    requires s.location <= location && location + |chunk| <= s.location + Size(s.emission)
    requires InPlace(g, location, |chunk|)
    ensures forall t | t in slots && Disjoint(s, t) :: Agree(g, Patched(g, location, chunk), t)
  {
    hide Agree, Patched, Disjoint, Tracked, Within;
    forall t | t in slots && Disjoint(s, t) ensures Agree(g, Patched(g, location, chunk), t) {
      WithinAll(slots, c, t);
      PatchAgrees(g, location, chunk, s, t, c);
    }
  }

  /** The alignment exponent for which the source's shift is defined. */
  predicate Sensible(line: Line) {
    line.AlignDirective? ==> 0 <= line.x < 32
  }

  lemma ItemsFormed(items: seq<Item>)
    ensures AllFormed(WordItems(items)) && AllFormed(ByteItems(items))
  {
  }

  lemma {:induction false} StringSize(bytes: seq<Byte>)
    ensures TotalSize(PutBytes(bytes)) == |bytes|
  {
    if bytes != [] {
      assert PutBytes(bytes)[1..] == PutBytes(bytes[1..]);
      StringSize(bytes[1..]);
    }
  }

  lemma {:induction false} PowersBelow(x: nat)
    requires x < 32
    ensures 0 < Pow2(x) < 0x1_0000_0000
  {
    PowersOfTwo();
    PowersGrow(x, 32);
  }

  lemma {:induction false} PowersGrow(m: nat, n: nat)
    requires m < n
    ensures Pow2(m) < Pow2(n)
  {
    if m + 1 < n {
      PowersGrow(m, n - 1);
    }
  }

  /** Two instructions in a row read back at a location and four bytes behind it. */
  lemma PairAtEnd(g: Segments, c: Cursor, w1: Word, w2: Word)
    requires |g.text| == c.text && |g.data| == c.data && Fits(Grow(c, 8))
    ensures var g2 := Append(Append(g, c.segment, BytesOf(w1)), c.segment, BytesOf(w2));
      && g2 == Append(g, c.segment, BytesOf(w1) + BytesOf(w2))
      && WordIn(g2, Location(c)) == Some(w1) && WordIn(g2, Location(c) + 4) == Some(w2)
  {
    hide BytesOf, WordOf;
    var g1 := Append(g, c.segment, BytesOf(w1));
    WordAtEnd(g, c, w1);
    WordStays(g1, c.segment, BytesOf(w2), Location(c));
    WordAtEnd(g1, Grow(c, 4), w2);
    match c.segment
    case TextSegment => assert (g.text + BytesOf(w1)) + BytesOf(w2) == g.text + (BytesOf(w1) + BytesOf(w2));
    case DataSegment => assert (g.data + BytesOf(w1)) + BytesOf(w2) == g.data + (BytesOf(w1) + BytesOf(w2));
  }

  /** The data segment after the final alignment. */
  function PaddedData(g: Segments): Segments {
    g.(data := g.data + ZeroBytes(Gap(DATA_SEGMENT_OFFSET + |g.data|, INSTRUCTION_SIZE)))
  }

  function PaddedEnd(lines: seq<Line>): Cursor {
    var c := End(lines, ORIGIN);
    c.(data := c.data + Gap(DATA_SEGMENT_OFFSET + c.data, INSTRUCTION_SIZE))
  }

  /** After `i` lines: what was done so far, followed by what is left, is the whole reference. */
  ghost predicate Split(lines: seq<Line>, i: nat, slots: seq<Slot>, ds: seq<Definition>, at: Cursor,
                        waiting: seq<string>) {
    && i <= |lines|
    && Slots(lines, ORIGIN) == slots + Slots(lines[i..], at)
    && Definitions(lines, ORIGIN, []) == ds + Definitions(lines[i..], at, waiting)
    && End(lines, ORIGIN) == End(lines[i..], at)
    && Proper(lines[i..], at)
  }

  lemma SplitStart(lines: seq<Line>)
    requires Proper(lines, ORIGIN)
    ensures Split(lines, 0, [], [], ORIGIN, [])
  {
    assert lines[0..] == lines;
  }

  /** One line on; the room for it follows from the room for the whole. */
  lemma SplitNext(lines: seq<Line>, i: nat, slots: seq<Slot>, ds: seq<Definition>, at: Cursor, waiting: seq<string>)
    requires i < |lines| && Split(lines, i, slots, ds, at, waiting) && Fits(PaddedEnd(lines))
    ensures lines[i].Label? ==> Split(lines, i + 1, slots, ds, at, [lines[i].name] + waiting)
    ensures !lines[i].Label? ==>
      && (IsDatum(lines[i]) ==> at.segment.DataSegment?) && Fits(Next(lines[i], at))
      && Split(lines, i + 1, slots + Arrange(Emissions(lines[i], at), Location(at)),
               ds + Bind(waiting, Start(lines[i], at)), Next(lines[i], at), [])
  {
    hide Emissions, Gap;
    var rest := lines[i..];
    assert rest[0] == lines[i] && rest[1..] == lines[i + 1..];
    EndGrows(rest[1..], Next(lines[i], at));
    var added := Arrange(Emissions(lines[i], at), Location(at));
    if lines[i].Label? {
      LabelLine(lines[i], at);
      assert added + Slots(rest[1..], at) == Slots(rest[1..], at);
    } else {
      var tail := Slots(rest[1..], Next(lines[i], at));
      assert slots + (added + tail) == (slots + added) + tail;
      var bound, after := Bind(waiting, Start(lines[i], at)), Definitions(rest[1..], Next(lines[i], at), []);
      assert ds + (bound + after) == (ds + bound) + after;
    }
  }

  lemma LabelLine(line: Line, c: Cursor)
    requires line.Label?
    ensures Emissions(line, c) == [] && Next(line, c) == c
  {
  }

  lemma SplitEnd(lines: seq<Line>, slots: seq<Slot>, ds: seq<Definition>, at: Cursor, waiting: seq<string>)
    requires Split(lines, |lines|, slots, ds, at, waiting)
    ensures Slots(lines, ORIGIN) == slots && Definitions(lines, ORIGIN, []) == ds + Bind(waiting, Location(at))
    ensures End(lines, ORIGIN) == at
  {
    assert lines[|lines|..] == [];
    assert slots + [] == slots;
  }

  /** A clash among the definitions made so far is a clash in the program. */
  lemma SplitClash(lines: seq<Line>, i: nat, slots: seq<Slot>, ds: seq<Definition>, at: Cursor, waiting: seq<string>,
                   name: string)
    requires Split(lines, i, slots, ds, at, waiting) && FirstClash(ds, name)
    ensures FirstClash(Definitions(lines, ORIGIN, []), name)
  {
    var all := Definitions(lines, ORIGIN, []);
    var k: nat :| ClashAt(ds, k) && ds[k].name == name;
    var j :| 0 <= j < k && ds[j].name == ds[k].name;
    assert all[..k] == ds[..k] && all[j] == ds[j] && all[k] == ds[k];
    assert ClashAt(all, k);
  }

  /** The last steps: to the end of the data segment, and to a word boundary. */
  lemma FinalAlign(b: Streams)
    requires Valid(b) && DATA_SEGMENT_OFFSET + |PaddedData(Content(b)).data| < END
    ensures Valid(Relocated(b, END))
    ensures var p := Aligned(Relocated(b, END), INSTRUCTION_SIZE);
      Valid(p) && Content(p) == PaddedData(Content(b))
  {
    hide Overwrite;
    assert b.data + ZeroBytes(0) == b.data;
  }

  lemma PaddedFits(lines: seq<Line>, g: Segments)
    requires Fits(PaddedEnd(lines)) && |g.data| == End(lines, ORIGIN).data
    ensures DATA_SEGMENT_OFFSET + |PaddedData(g).data| < END
  {
  }

  /** With the queue worked off, the output realises the reference. */
  lemma AllSettled(lines: seq<Line>, g: Segments, slots: seq<Slot>, env: Environment, queue: seq<AddressData>,
                   at: Cursor)
    requires Settled(g, slots, env, queue, |queue|)
    requires |g.text| == at.text && |g.data| == at.data && End(lines, ORIGIN) == at
    requires Slots(lines, ORIGIN) == slots && Labels(lines) == env
    ensures Realises(g, lines) && forall s | s in Slots(lines, ORIGIN) :: Resolvable(s.emission, Labels(lines))
  {
    forall s | s in slots ensures Holds(g, s, env) {
      var i :| 0 <= i < |slots| && slots[i] == s;
    }
  }

  // ----- the assembler -----

  class Assembler {
    const binary: BinaryBuilder
    var labelLocations: Environment
    var unresolvedAddressLocations: seq<AddressData>
    /** Labels whose statement has not been read yet, the innermost first. */
    var waiting: seq<string>
    var macros: set<string>
    var macroFunctions: set<string>

    ghost var slots: seq<Slot>
    ghost var definitions: seq<Definition>
    ghost var at: Cursor

    constructor ()
      ensures fresh(binary)
    {
      binary := new BinaryBuilder();
      labelLocations, unresolvedAddressLocations, waiting := map[], [], [];
      macros, macroFunctions := {}, {};
      slots, definitions, at := [], [], ORIGIN;
    }

    predicate IsIdentifierDefined(name: string)
      reads this
    {
      name in labelLocations || name in macros || name in macroFunctions
    }

    /** While parsing: the builder is at its end, every emission is final or queued, and the label
        table is what the definitions made so far say. */
    ghost predicate Parsing()
      reads this, binary
    {
      && AtEnd(binary.View(), at)
      && Partial(Content(binary.View()), slots, labelLocations, unresolvedAddressLocations, at)
      && labelLocations == EnvironmentOf(definitions) && Distinct(definitions)
    }

    method ResolveAddress(address: AddressData, mustResolve: bool) returns (r: Resolution)
      modifies this`unresolvedAddressLocations
      ensures match Fill(address, labelLocations)
        case Some(filled) => r == Resolved(filled) && unresolvedAddressLocations == old(unresolvedAddressLocations)
        case None =>
          if mustResolve then
            r == Unresolvable(address.target) && unresolvedAddressLocations == old(unresolvedAddressLocations)
          else r == Deferred && unresolvedAddressLocations == old(unresolvedAddressLocations) + [address]
    {
      match address.kind {
        case DirectAddressAbsolute =>
          if address.target in labelLocations {
            return Resolved(address.(instructionData :=
              PatchJump(address.instructionData, labelLocations[address.target])));
          }
        case DirectAddressOffset =>
          if address.target in labelLocations {
            return Resolved(address.(instructionData :=
              PatchBranch(address.instructionData, labelLocations[address.target] - address.position)));
          }
        case IndirectAddressOffset =>
          if address.target == "" {
            return Resolved(address.(instructionData :=
              PatchIndirect(address.instructionData, address.reg, address.offset - address.position)));
          } else if address.target in labelLocations {
            return Resolved(address.(instructionData :=
              PatchIndirect(address.instructionData, address.reg,
                            labelLocations[address.target] + address.offset - address.position)));
          }
        case DirectAddressAbsoluteWord | DirectAddressAbsoluteByte | DirectAddressAbsoluteLoad =>
          if address.target in labelLocations {
            return Resolved(address.(instructionData := Wrap(labelLocations[address.target])));
          }
      }
      if mustResolve {
        return Unresolvable(address.target);
      }
      unresolvedAddressLocations := unresolvedAddressLocations + [address];
      return Deferred;
    }

    /** The name must be new among labels and macros. */
    method DefineLabel(name: string, location: nat) returns (ok: bool)
      requires Parsing()
      modifies this`labelLocations, this`definitions
      ensures ok <==> !old(IsIdentifierDefined(name))
      ensures Parsing() && (ok ==> definitions == old(definitions) + [Definition(name, location)])
      ensures !ok ==> labelLocations == old(labelLocations) && definitions == old(definitions)
    {
      hide Partial, AtEnd;
      if IsIdentifierDefined(name) {
        return false;
      }
      ghost var before := labelLocations;
      DefinedNames(definitions);
      labelLocations := labelLocations[name := location];
      definitions := definitions + [Definition(name, location)];
      assert definitions[..|definitions| - 1] == old(definitions);
      PartialDefine(Content(binary.View()), slots, before, unresolvedAddressLocations, at, labelLocations);
      return true;
    }

    /** INSTRUCTION_RRA, INSTRUCTION_RA, INSTRUCTION_A and the label items of `.word`: resolve now or
        queue, and write the word either way. */
    method EmitAddress(a: AddressData, ghost e: Emission)
      requires Parsing() && Size(e) == 4 && Fits(Grow(at, 4)) && Serves(a, Slot(Location(at), e))
      requires a.kind != DirectAddressAbsoluteByte && a.kind != DirectAddressAbsoluteLoad
      modifies this`unresolvedAddressLocations, this`slots, this`at, binary
      ensures Parsing() && slots == old(slots) + [Slot(Location(old(at)), e)] && at == Grow(old(at), 4)
    {
      ghost var g, before := Content(binary.View()), unresolvedAddressLocations;
      ghost var s := Slot(Location(at), e);
      var r := ResolveAddress(a, false);
      var word: Word := if r.Resolved? then r.address.instructionData else a.instructionData;
      AppendWord(binary.View(), at, word);
      WordAtEnd(g, at, word);
      binary.WriteWord(word);
      if r.Resolved? {
        FilledHolds(a, labelLocations, s, Append(g, at.segment, BytesOf(word)));
        assert unresolvedAddressLocations == before + [];
        PartialAppend(g, slots, labelLocations, before, at, e, BytesOf(word), []);
      } else {
        PartialAppend(g, slots, labelLocations, before, at, e, BytesOf(word), [a]);
      }
      slots, at := slots + [s], Grow(at, 4);
    }

    /** A word that needs no label. */
    method EmitWord(word: Word, ghost e: Emission)
      requires Parsing() && Size(e) == 4 && Fits(Grow(at, 4))
      requires Holds(Append(Content(binary.View()), at.segment, BytesOf(word)), Slot(Location(at), e), labelLocations)
      modifies this`slots, this`at, binary
      ensures Parsing() && slots == old(slots) + [Slot(Location(old(at)), e)] && at == Grow(old(at), 4)
    {
      hide Holds, Serves;
      ghost var g := Content(binary.View());
      AppendWord(binary.View(), at, word);
      binary.WriteWord(word);
      assert unresolvedAddressLocations + [] == unresolvedAddressLocations;
      PartialAppend(g, slots, labelLocations, unresolvedAddressLocations, at, e, BytesOf(word), []);
      slots, at := slots + [Slot(Location(at), e)], Grow(at, 4);
    }

    method EmitByte(byte: Byte)
      requires Parsing() && at.segment.DataSegment? && Fits(Grow(at, 1))
      modifies this`slots, this`at, binary
      ensures Parsing() && slots == old(slots) + [Slot(Location(old(at)), PutByte(byte))] && at == Grow(old(at), 1)
    {
      hide Serves;
      ghost var g := Content(binary.View());
      AppendBytes(binary.View(), at, [byte]);
      binary.WriteByte(byte);
      assert Holds(Append(g, DataSegment, [byte]), Slot(Location(at), PutByte(byte)), labelLocations);
      assert unresolvedAddressLocations + [] == unresolvedAddressLocations;
      PartialAppend(g, slots, labelLocations, unresolvedAddressLocations, at, PutByte(byte), [byte], []);
      slots, at := slots + [Slot(Location(at), PutByte(byte))], Grow(at, 1);
    }

    /** A label item of `.byte`: the low byte of its value. */
    method EmitByteOf(target: string)
      requires Parsing() && at.segment.DataSegment? && Fits(Grow(at, 1))
      modifies this`unresolvedAddressLocations, this`slots, this`at, binary
      ensures Parsing() && slots == old(slots) + [Slot(Location(old(at)), PutByteOf(target))] && at == Grow(old(at), 1)
    {
      hide Tracked, Settled, Queued;
      PartialSizes(Content(binary.View()), slots, labelLocations, unresolvedAddressLocations, at);
      ghost var g, before := Content(binary.View()), unresolvedAddressLocations;
      ghost var e := PutByteOf(target);
      var junk: Word := *;
      var location := binary.GetLocation();
      var a := AddressData(DirectAddressAbsoluteByte, location, junk, target, 0, ZERO);
      var r := ResolveAddress(a, false);
      var byte: Byte := (if r.Resolved? then r.address.instructionData else a.instructionData) % 0x100;
      AppendBytes(binary.View(), at, [byte]);
      binary.WriteByte(byte);
      if r.Resolved? {
        FilledHolds(a, labelLocations, Slot(Location(at), e), Append(g, DataSegment, [byte]));
        assert unresolvedAddressLocations == before + [];
        PartialAppend(g, slots, labelLocations, before, at, e, [byte], []);
      } else {
        PartialAppend(g, slots, labelLocations, before, at, e, [byte], [a]);
      }
      slots, at := slots + [Slot(Location(at), e)], Grow(at, 1);
    }

    /** `la`: two instructions, both patched later if the label is unknown. */
    method EmitLoadAddress(r0: Reg, target: string)
      requires Parsing() && Fits(Grow(at, 8))
      modifies this`unresolvedAddressLocations, this`slots, this`at, binary
      ensures Parsing() && at == Grow(old(at), 8)
      ensures slots == old(slots) + [Slot(Location(old(at)), PutLoadAddress(r0, target))]
    {
      hide Decode, Partial, Holds, WordIn, ByteIn, BytesOf, Append, Upper, Lower;
      ghost var g, before := Content(binary.View()), unresolvedAddressLocations;
      ghost var e := PutLoadAddress(r0, target);
      PartialSizes(g, slots, labelLocations, before, at);
      var junk: Word := *;
      var location := binary.GetLocation();
      var a := AddressData(DirectAddressAbsoluteLoad, location, junk, target, 0, r0);
      var r := ResolveAddress(a, false);
      var word: Word := junk;
      if r.Resolved? {
        word := r.address.instructionData;
      }
      var upper, lower := WriteLoad(r0, word, at);
      PairAtEnd(g, at, upper, lower);
      ghost var chunk := BytesOf(upper) + BytesOf(lower);
      if r.Resolved? {
        FilledHolds(a, labelLocations, Slot(Location(at), e), Append(g, at.segment, chunk));
        assert unresolvedAddressLocations == before + [];
        PartialAppend(g, slots, labelLocations, before, at, e, chunk, []);
      } else {
        PartialAppend(g, slots, labelLocations, before, at, e, chunk, [a]);
      }
      slots, at := slots + [Slot(Location(at), e)], Grow(at, 8);
    }

    /** `lui` and `ori` at the end of the output. */
    method WriteLoad(r0: Reg, word: Word, ghost c: Cursor) returns (upper: Word, lower: Word)
      requires AtEnd(binary.View(), c) && Fits(Grow(c, 8))
      modifies binary
      ensures AtEnd(binary.View(), Grow(c, 8))
      ensures Content(binary.View())
        == Append(Append(old(Content(binary.View())), c.segment, BytesOf(upper)), c.segment, BytesOf(lower))
      ensures Decode(upper) == Some(InsRL(LUI, r0, Upper(word)))
      ensures Decode(lower) == Some(InsRRL(ORI, r0, r0, Lower(word)))
    {
      hide Decode, BytesOf, EmitRL, EmitRRL, FormOf, Append, Overwrite;
      assert FormOf(LUI) == FormRL && FormOf(ORI) == FormRRL by { FormsOfLoad(); }
      var junk1: Word, junk2: Word := *, *;
      upper := EmitRL(LUI, r0, Upper(word), junk1);
      lower := EmitRRL(ORI, r0, r0, Lower(word), junk2);
      AppendWord(binary.View(), c, upper);
      binary.WriteWord(upper);
      AppendWord(binary.View(), Grow(c, 4), lower);
      binary.WriteWord(lower);
    }

    /** One emission, by the macro of its form. */
    method Emit(e: Emission)
      requires Parsing() && Formed(e) && Fits(Grow(at, Size(e))) && (Size(e) == 1 ==> at.segment.DataSegment?)
      modifies this`unresolvedAddressLocations, this`slots, this`at, binary
      ensures Parsing() && slots == old(slots) + [Slot(Location(old(at)), e)] && at == Grow(old(at), Size(e))
    {
      hide Decode, Partial, Holds, Number, FormOf, OpcodeAt, EmitRRR, EmitRRL, EmitRR, EmitRL, EmitR, EmitO, OpcodeField,
        Register0, Register1;
      ghost var g := Content(binary.View());
      var junk: Word := *;
      var location := binary.GetLocation();
      match e {
        case PutRRR(op, r0, r1, r2) =>
          var word := EmitRRR(op, r0, r1, r2, junk);
          CodeHoldsHere(e, word);
          EmitWord(word, e);
        case PutRRL(op, r0, r1, l) =>
          var word := EmitRRL(op, r0, r1, l, junk);
          CodeHoldsHere(e, word);
          EmitWord(word, e);
        case PutRR(op, r0, r1) =>
          var word := EmitRR(op, r0, r1, junk);
          CodeHoldsHere(e, word);
          EmitWord(word, e);
        case PutRL(op, r0, l) =>
          var word := EmitRL(op, r0, l, junk);
          CodeHoldsHere(e, word);
          EmitWord(word, e);
        case PutR(op, r0) =>
          var word := EmitR(op, r0, junk);
          CodeHoldsHere(e, word);
          EmitWord(word, e);
        case PutO(op) =>
          var word := EmitO(op, junk);
          CodeHoldsHere(e, word);
          EmitWord(word, e);
        case PutBranch2(op, r0, r1, target) =>
          EmitAddress(AddressData(DirectAddressOffset, location, EmitRR(op, r0, r1, junk), target, 0, ZERO), e);
        case PutBranch1(op, r0, target) =>
          EmitAddress(AddressData(DirectAddressOffset, location, EmitR(op, r0, junk), target, 0, ZERO), e);
        case PutAccess(op, r0, address) =>
          EmitAddress(AddressData(IndirectAddressOffset, location, EmitR(op, r0, junk), address.target, address.offset,
                                  address.reg), e);
        case PutJump(op, target) =>
          EmitAddress(AddressData(DirectAddressAbsolute, location, EmitO(op, junk), target, 0, ZERO), e);
        case PutLoadAddress(r0, target) =>
          EmitLoadAddress(r0, target);
        case PutWord(w) =>
          PutWordHolds(g, at, w, labelLocations);
          EmitWord(w, e);
        case PutWordOf(target) =>
          EmitAddress(AddressData(DirectAddressAbsoluteWord, location, junk, target, 0, ZERO), e);
        case PutByte(b) =>
          EmitByte(b);
        case PutByteOf(target) =>
          EmitByteOf(target);
      }
    }

    method EmitAll(es: seq<Emission>)
      requires Parsing() && AllFormed(es) && Fits(Grow(at, TotalSize(es)))
      requires at.segment.DataSegment? || forall i | 0 <= i < |es| :: IsCode(es[i])
      modifies this`unresolvedAddressLocations, this`slots, this`at, binary
      ensures Parsing() && slots == old(slots) + Arrange(es, Location(old(at))) && at == Grow(old(at), TotalSize(es))
    {
      hide Partial, Arrange, TotalSize, Formed, Size;
      ghost var at0, slots0 := at, slots;
      assert Arrange(es[..0], Location(at0)) == [] && TotalSize(es[..0]) == 0 by { ArrangeNothing(es, Location(at0)); }
      for j := 0 to |es|
        invariant Parsing() && labelLocations == old(labelLocations) && definitions == old(definitions)
        invariant slots == slots0 + Arrange(es[..j], Location(at0))
        invariant at == Grow(at0, TotalSize(es[..j]))
      {
        ArrangeNext(es, j, Location(at0));
        PrefixSize(es, j + 1);
        CodeSizes(es[j]);
        Emit(es[j]);
        assert slots == slots0 + (Arrange(es[..j], Location(at0)) + [Slot(Location(at0) + TotalSize(es[..j]), es[j])]);
      }
      assert es[..|es|] == es;
    }

    /** Plain bytes of a string or of padding, once the builder has them. */
    ghost method TrackBytes(g: Segments, bytes: seq<Byte>)
      requires at.segment.DataSegment? && Fits(Grow(at, |bytes|))
      requires Partial(g, slots, labelLocations, unresolvedAddressLocations, at)
      requires AtEnd(binary.View(), Grow(at, |bytes|)) && Content(binary.View()) == Append(g, DataSegment, bytes)
      requires labelLocations == EnvironmentOf(definitions) && Distinct(definitions)
      modifies this`slots, this`at
      ensures Parsing() && at == Grow(old(at), |bytes|) && TotalSize(PutBytes(bytes)) == |bytes|
      ensures slots == old(slots) + Arrange(PutBytes(bytes), Location(old(at)))
    {
      PartialBytes(g, slots, labelLocations, unresolvedAddressLocations, at, bytes);
      slots, at := slots + Arrange(PutBytes(bytes), Location(at)), Grow(at, |bytes|);
    }

    /** One statement; `start` is the location a label in front of it gets. */
    method Statement(line: Line) returns (start: nat)
      requires Parsing() && !line.Label? && WellFormed(line) && Lexes(line) && Sensible(line)
      requires (IsDatum(line) ==> at.segment.DataSegment?) && Fits(Next(line, at))
      modifies this`unresolvedAddressLocations, this`slots, this`at, binary
      ensures Parsing() && at == Next(line, old(at)) && start == Start(line, old(at))
      ensures slots == old(slots) + Arrange(Emissions(line, old(at)), Location(old(at)))
    {
      hide Partial, Arrange, Expand, Formed, TotalSize, WellFormed, Emissions, Next;
      if line.TextDirective? {
        start := binary.GetLocation();
        SwitchTo(TextSegment, line);
      } else if line.DataDirective? {
        start := binary.GetLocation();
        SwitchTo(DataSegment, line);
      } else if IsDatum(line) {
        start := DataStatement(line);
      } else {
        start := binary.GetLocation();
        InstructionLine(line, at);
        ExpandFormed(line);
        EmitAll(Expand(line));
      }
    }

    method DataStatement(line: Line) returns (start: nat)
      requires Parsing() && IsDatum(line) && Lexes(line) && Sensible(line)
      requires at.segment.DataSegment? && Fits(Next(line, at))
      modifies this`unresolvedAddressLocations, this`slots, this`at, binary
      ensures Parsing() && at == Next(line, old(at)) && start == Start(line, old(at))
      ensures slots == old(slots) + Arrange(Emissions(line, old(at)), Location(old(at)))
    {
      hide Partial, Arrange, Expand, Formed, TotalSize, WellFormed;
      if line.WordDirective? {
        start := WordStatement(line.items);
      } else {
        start := binary.GetLocation();
        if line.ByteDirective? {
          ItemsFormed(line.items);
          EmitAll(ByteItems(line.items));
        } else if line.AsciiDirective? {
          StringSize(line.bytes);
          StringStatement(line.bytes);
        } else if line.AsciizDirective? {
          assert PutBytes(line.bytes + [0]) == Emissions(line, at);
          StringSize(line.bytes + [0]);
          StringStatement(line.bytes + [0]);
        } else if line.AlignDirective? {
          var alignment := 1;
          for i := 0 to line.x
            invariant alignment == Pow2(i)
          {
            alignment := alignment * 2;
          }
          PowersBelow(line.x);
          ZerosSize(Gap(Location(at), alignment));
          AlignStatement(alignment);
        } else {
          ZerosSize(Wrap(line.x));
          PadStatement(Wrap(line.x));
        }
      }
    }

    method SwitchTo(segment: Segment, ghost line: Line)
      requires Parsing() && line == if segment.TextSegment? then TextDirective else DataDirective
      modifies this`slots, this`at, binary
      ensures Parsing() && at == Next(line, old(at))
      ensures slots == old(slots) + Arrange(Emissions(line, old(at)), Location(old(at)))
    {
      SwitchKeepsEnd(binary.View(), at, segment);
      binary.SetSegmentType(segment);
      assert slots + [] == slots;
      at := at.(segment := segment);
    }

    method PadStatement(size: Word)
      requires Parsing() && at.segment.DataSegment? && Fits(Grow(at, size))
      modifies this`slots, this`at, binary
      ensures Parsing() && at == Grow(old(at), size) && TotalSize(Zeros(size)) == size
      ensures slots == old(slots) + Arrange(Zeros(size), Location(old(at)))
    {
      ghost var g := Content(binary.View());
      PadGrows(binary.View(), at, size);
      binary.Pad(size);
      assert PutBytes(ZeroBytes(size)) == Zeros(size);
      TrackBytes(g, ZeroBytes(size));
    }

    method AlignStatement(alignment: Word)
      requires Parsing() && at.segment.DataSegment? && alignment > 0
      requires Fits(Grow(at, Gap(Location(at), alignment)))
      modifies this`slots, this`at, binary
      ensures var gap := Gap(Location(old(at)), alignment);
        && Parsing() && at == Grow(old(at), gap) && TotalSize(Zeros(gap)) == gap
        && slots == old(slots) + Arrange(Zeros(gap), Location(old(at)))
    {
      ghost var g := Content(binary.View());
      ghost var gap := Gap(Location(at), alignment);
      AlignGrows(binary.View(), at, alignment);
      binary.Align(alignment);
      assert PutBytes(ZeroBytes(gap)) == Zeros(gap);
      TrackBytes(g, ZeroBytes(gap));
    }

    method StringStatement(bytes: seq<Byte>)
      requires Parsing() && at.segment.DataSegment? && Fits(Grow(at, |bytes|))
      modifies this`slots, this`at, binary
      ensures Parsing() && at == Grow(old(at), |bytes|) && TotalSize(PutBytes(bytes)) == |bytes|
      ensures slots == old(slots) + Arrange(PutBytes(bytes), Location(old(at)))
    {
      ghost var g := Content(binary.View());
      AppendBytes(binary.View(), at, bytes);
      binary.WriteString(bytes);
      TrackBytes(g, bytes);
    }

    method WordStatement(items: seq<Item>) returns (start: nat)
      requires Parsing() && at.segment.DataSegment? && Fits(Next(WordDirective(items), at))
      modifies this`unresolvedAddressLocations, this`slots, this`at, binary
      ensures Parsing() && at == Next(WordDirective(items), old(at)) && start == Start(WordDirective(items), old(at))
      ensures slots == old(slots) + Arrange(Emissions(WordDirective(items), old(at)), Location(old(at)))
    {
      hide Partial, Arrange, Formed, TotalSize, Gap, WordItems, AtEnd;
      ghost var at0, slots0 := at, slots;
      ghost var gap := Lead(WordDirective(items), at);
      var es := WordItems(items);
      assert Emissions(WordDirective(items), at) == Zeros(gap) + es;
      ArrangeAppend(Zeros(gap), es, Location(at));
      ZerosSize(gap);
      AlignStatement(INSTRUCTION_SIZE);
      AtCursor();
      start := binary.GetLocation();
      ItemsFormed(items);
      EmitAll(es);
      assert slots == slots0 + (Arrange(Zeros(gap), Location(at0)) + Arrange(es, Location(at0) + gap));
    }

    /** The labels in front of a statement, innermost first. */
    method DefineWaiting(location: nat) returns (clash: Option<string>)
      requires Parsing() && macros == {} == macroFunctions
      modifies this`labelLocations, this`definitions, this`waiting
      ensures clash.None? ==>
        Parsing() && waiting == [] && definitions == old(definitions) + Bind(old(waiting), location)
      ensures clash.Some? ==> FirstClash(old(definitions) + Bind(old(waiting), location), clash.value)
    {
      hide Partial, AtEnd, Distinct, EnvironmentOf;
      ghost var k := 0;
      assert definitions == old(definitions) + Bind(old(waiting), location)[..0];
      while waiting != []
        invariant Parsing() && 0 <= k <= |old(waiting)| && waiting == old(waiting)[k..]
        invariant definitions == old(definitions) + Bind(old(waiting), location)[..k]
        decreases |waiting|
      {
        var name := waiting[0];
        var ok := DefineLabel(name, location);
        if !ok {
          ClashAmong(old(definitions), old(waiting), location, k);
          return Some(name);
        }
        waiting := waiting[1..];
        k := k + 1;
      }
      return None;
    }

    // ----- patching -----

    /** While patching: sizes are final, and every slot is right or still in the queue from `k` on. */
    ghost predicate Patching(k: nat)
      reads this, binary
    {
      var g := Content(binary.View());
      && Valid(binary.View()) && Fits(at) && |g.text| == at.text && |g.data| == at.data
      && Tracked(slots, at) && Queued(slots, unresolvedAddressLocations)
      && Settled(g, slots, labelLocations, unresolvedAddressLocations, k)
    }

    /** One turn of the patch loop. */
    method Patch(k: nat) returns (r: Resolution)
      requires k < |unresolvedAddressLocations| && Patching(k)
      modifies this`unresolvedAddressLocations, binary
      ensures unresolvedAddressLocations == old(unresolvedAddressLocations)
      ensures r.Unresolvable? ==> exists s | s in slots :: Missing(s.emission, r.name, labelLocations)
      ensures !r.Unresolvable? ==> Patching(k + 1)
    {
      hide Holds, Serves, Tracked, Settled, Queued, Missing;
      var a := unresolvedAddressLocations[k];
      ghost var g := Content(binary.View());
      ghost var s := ServedSlot(slots, unresolvedAddressLocations, k, at, g);
      Return(binary.View(), a.position, Size(s.emission));
      binary.SetLocation(a.position);
      r := ResolveAddress(a, true);
      FillsWhenResolvable(a, labelLocations, s);
      if r.Resolved? {
        PatchResolved(a, r.address, s);
        PatchSettles(g, Content(binary.View()), slots, labelLocations, unresolvedAddressLocations, at, k, s);
      }
    }

    method PatchResolved(a: AddressData, filled: AddressData, ghost s: Slot)
      requires Serves(a, s) && Fill(a, labelLocations) == Some(filled)
      requires Tracked(slots, at) && s in slots && Fits(at)
      requires var g := Content(binary.View()); |g.text| == at.text && |g.data| == at.data
      requires Valid(binary.View()) && Writing(binary.View(), a.position)
      requires InPlace(Content(binary.View()), a.position, Size(s.emission))
      requires s.emission.PutByteOf? ==> a.position >= DATA_SEGMENT_OFFSET
      modifies binary
      ensures Valid(binary.View())
      ensures var g := Content(binary.View()); |g.text| == at.text && |g.data| == at.data
      ensures Holds(Content(binary.View()), s, labelLocations)
      ensures forall t | t in slots && Disjoint(s, t) :: Agree(old(Content(binary.View())), Content(binary.View()), t)
    {
      hide Holds, Tracked, Disjoint, Agree, Serves, Fill, InPlace, Valid, Writing;
      assert Within(s, at) by { WithinAll(slots, at, s); }
      KindOfSlot(a, s);
      if a.kind == DirectAddressAbsoluteByte {
        PatchOneByte(a, filled, s);
      } else if a.kind == DirectAddressAbsoluteLoad {
        PatchLoad(a, filled, s);
      } else {
        PatchOneWord(a, filled, s);
      }
    }

    method PatchOneByte(a: AddressData, filled: AddressData, ghost s: Slot)
      requires Serves(a, s) && Fill(a, labelLocations) == Some(filled) && a.kind == DirectAddressAbsoluteByte
      requires Tracked(slots, at) && s in slots && Fits(at) && Within(s, at)
      requires var g := Content(binary.View()); |g.text| == at.text && |g.data| == at.data
      requires Valid(binary.View()) && Writing(binary.View(), a.position)
      requires InPlace(Content(binary.View()), a.position, 1) && a.position >= DATA_SEGMENT_OFFSET
      modifies binary
      ensures Valid(binary.View())
      ensures var g := Content(binary.View()); |g.text| == at.text && |g.data| == at.data
      ensures Holds(Content(binary.View()), s, labelLocations)
      ensures forall t | t in slots && Disjoint(s, t) :: Agree(old(Content(binary.View())), Content(binary.View()), t)
    {
      hide Holds, Tracked, Disjoint, Agree, Decode;
      ghost var g := Content(binary.View());
      var byte: Byte := filled.instructionData % 0x100;
      PatchByte(binary.View(), a.position, byte);
      binary.WriteByte(byte);
      FilledHolds(a, labelLocations, s, Patched(g, a.position, [byte]));
      OthersAgree(g, a.position, [byte], s, slots, at);
    }

    method PatchOneWord(a: AddressData, filled: AddressData, ghost s: Slot)
      requires Serves(a, s) && Fill(a, labelLocations) == Some(filled)
      requires a.kind != DirectAddressAbsoluteByte && a.kind != DirectAddressAbsoluteLoad
      requires Tracked(slots, at) && s in slots && Fits(at) && Within(s, at)
      requires var g := Content(binary.View()); |g.text| == at.text && |g.data| == at.data
      requires Valid(binary.View()) && Writing(binary.View(), a.position)
      requires InPlace(Content(binary.View()), a.position, 4)
      modifies binary
      ensures Valid(binary.View())
      ensures var g := Content(binary.View()); |g.text| == at.text && |g.data| == at.data
      ensures Holds(Content(binary.View()), s, labelLocations)
      ensures forall t | t in slots && Disjoint(s, t) :: Agree(old(Content(binary.View())), Content(binary.View()), t)
    {
      hide Holds, Tracked, Disjoint, Agree, Decode, BytesOf, WordIn, Serves, Fill;
      ghost var g := Content(binary.View());
      KindOfSlot(a, s);
      PatchWord(binary.View(), a.position, filled.instructionData);
      binary.WriteWord(filled.instructionData);
      PatchedHere(g, a.position, filled.instructionData);
      FilledKeepsPlace(a, labelLocations);
      FilledHolds(a, labelLocations, s, Patched(g, a.position, BytesOf(filled.instructionData)));
      OthersAgree(g, a.position, BytesOf(filled.instructionData), s, slots, at);
    }

    /** The two instructions of `la`, emitted afresh over their placeholders. */
    method PatchLoad(a: AddressData, filled: AddressData, ghost s: Slot)
      requires Serves(a, s) && Fill(a, labelLocations) == Some(filled) && a.kind == DirectAddressAbsoluteLoad
      requires Tracked(slots, at) && s in slots && Fits(at) && Within(s, at)
      requires var g := Content(binary.View()); |g.text| == at.text && |g.data| == at.data
      requires Valid(binary.View()) && Writing(binary.View(), a.position)
      requires InPlace(Content(binary.View()), a.position, 8)
      modifies binary
      ensures Valid(binary.View())
      ensures var g := Content(binary.View()); |g.text| == at.text && |g.data| == at.data
      ensures Holds(Content(binary.View()), s, labelLocations)
      ensures forall t | t in slots && Disjoint(s, t) :: Agree(old(Content(binary.View())), Content(binary.View()), t)
    {
      hide Holds, Tracked, Disjoint, Decode, BytesOf, Patched, WordIn, Valid, Writing;
      ghost var g := Content(binary.View());
      var upper, lower := OverwriteLoad(filled.reg, filled.instructionData, a.position);
      ghost var g1 := Patched(g, a.position, BytesOf(upper));
      ghost var g2 := Patched(g1, a.position + 4, BytesOf(lower));
      FilledHolds(a, labelLocations, s, g2);
      forall t | t in slots && Disjoint(s, t) ensures Agree(g, g2, t) {
        WithinAll(slots, at, t);
        PatchAgrees(g, a.position, BytesOf(upper), s, t, at);
        PatchAgrees(g1, a.position + 4, BytesOf(lower), s, t, at);
      }
    }

    method OverwriteLoad(r0: Reg, word: Word, location: Word) returns (upper: Word, lower: Word)
      requires Valid(binary.View()) && Writing(binary.View(), location)
      requires InPlace(Content(binary.View()), location, 8) && location + 8 < END
      modifies binary
      ensures Valid(binary.View())
      ensures var g := old(Content(binary.View()));
        && InPlace(g, location, 4)
        && var g1 := Patched(g, location, BytesOf(upper));
        && InPlace(g1, location + 4, 4)
        && Content(binary.View()) == Patched(g1, location + 4, BytesOf(lower))
        && |g1.text| == |g.text| && |g1.data| == |g.data|
        && |Content(binary.View()).text| == |g.text| && |Content(binary.View()).data| == |g.data|
      ensures Decodes(Content(binary.View()), location, InsRL(LUI, r0, Upper(word)))
      ensures Decodes(Content(binary.View()), location + 4, InsRRL(ORI, r0, r0, Lower(word)))
    {
      hide Decode, EmitRL, EmitRRL, FormOf, BytesOf, WordIn, Upper, Lower, Patched, Valid, Writing;
      FormsOfLoad();
      ghost var g := Content(binary.View());
      var junk1: Word, junk2: Word := *, *;
      upper := EmitRL(LUI, r0, Upper(word), junk1);
      lower := EmitRRL(ORI, r0, r0, Lower(word), junk2);
      OverwriteWord(upper, location);
      ghost var g1 := Content(binary.View());
      OverwriteWord(lower, location + 4);
      PatchedElsewhere(g1, location + 4, BytesOf(lower), location);
    }

    /** Writes over the word at the write position. */
    method OverwriteWord(word: Word, ghost location: Word)
      requires Valid(binary.View()) && Writing(binary.View(), location)
      requires InPlace(Content(binary.View()), location, 4) && location + 4 < END
      modifies binary
      ensures Valid(binary.View()) && Writing(binary.View(), location + 4)
      ensures Content(binary.View()) == Patched(old(Content(binary.View())), location, BytesOf(word))
      ensures |Content(binary.View()).text| == |old(Content(binary.View())).text| < DATA_SEGMENT_OFFSET
      ensures |Content(binary.View()).data| == |old(Content(binary.View())).data|
      ensures WordIn(Content(binary.View()), location) == Some(word)
    {
      hide BytesOf, WordIn;
      ghost var g := Content(binary.View());
      PatchWord(binary.View(), location, word);
      binary.WriteWord(word);
      PatchedHere(g, location, word);
    }

    /** One line: a label waits for the statement behind it, a statement is emitted and its labels defined. */
    method ReadLine(line: Line, ghost lines: seq<Line>, ghost i: nat) returns (error: Option<Error>)
      requires Parsing() && macros == {} == macroFunctions
      requires i < |lines| && line == lines[i] && WellFormed(line) && Sensible(line) && Fits(PaddedEnd(lines))
      requires Split(lines, i, slots, definitions, at, waiting)
      modifies this`unresolvedAddressLocations, this`labelLocations, this`waiting, this`slots, this`definitions, this`at,
        binary
      ensures error.None? ==>
        Lexes(line) && Parsing() && Split(lines, i + 1, slots, definitions, at, waiting)
      ensures error.Some? ==>
        if Lexes(line) then error.value.Redefined? && FirstClash(Definitions(lines, ORIGIN, []), error.value.name)
        else error.value == Unreadable
    {
      hide Partial, AtEnd, Lexes, WellFormed, Sensible, Proper, Distinct, Next, Emissions, Split, Definitions, End, Gap, Fits,
        FirstClash;
      if !Lexes(line) {
        return Some(Unreadable);
      }
      SplitNext(lines, i, slots, definitions, at, waiting);
      if line.Label? {
        waiting := [line.name] + waiting;
      } else {
        ghost var before := definitions + Bind(waiting, Start(line, at));
        var start := Statement(line);
        var clash := DefineWaiting(start);
        if clash.Some? {
          SplitClash(lines, i + 1, slots, before, at, [], clash.value);
          return Some(Redefined(clash.value));
        }
      }
      return None;
    }

    /** The patch loop: it settles the whole queue, or comes to a label that is not defined. */
    method PatchAll() returns (missing: Option<string>)
      requires Patching(0)
      modifies this`unresolvedAddressLocations, binary
      ensures unresolvedAddressLocations == old(unresolvedAddressLocations)
      ensures missing.None? ==> Patching(|unresolvedAddressLocations|)
      ensures missing.Some? ==> exists s | s in slots :: Missing(s.emission, missing.value, labelLocations)
    {
      hide Tracked, Queued, Settled, Resolvable, Missing;
      for k := 0 to |unresolvedAddressLocations|
        invariant unresolvedAddressLocations == old(unresolvedAddressLocations) && Patching(k)
      {
        var p := Patch(k);
        if p.Unresolvable? {
          return Some(p.name);
        }
      }
      return None;
    }

    /** The whole assembly. It succeeds exactly when every line can be read, no label is defined twice and
        every label that is used is defined, and then the file holds what the two-pass reference says,
        padded to a whole number of words. */
    method Assemble(lines: seq<Line>) returns (r: Outcome, ghost g: Segments)
      requires forall i | 0 <= i < |lines| :: WellFormed(lines[i]) && Sensible(lines[i])
      requires Proper(lines, ORIGIN) && Fits(PaddedEnd(lines))
      modifies this, binary
      ensures r.Assembled? <==>
        && (forall i | 0 <= i < |lines| :: Lexes(lines[i]))
        && Distinct(Definitions(lines, ORIGIN, []))
        && (forall s | s in Slots(lines, ORIGIN) :: Resolvable(s.emission, Labels(lines)))
      ensures r.Assembled? ==> Realises(g, lines) && r.file == FileOf(PaddedData(g))
      ensures r.Failed? ==> Explains(r.error, lines)
    {
      hide Partial, AtEnd, Lexes, WellFormed, Sensible, Proper, Distinct, Next, Emissions, Split, Holds, Slots, FirstClash,
        Missing, Explains, Definitions, End, Settled, Tracked, Queued, Realises, FileOf, Gap, Fits;
      g := Segments([], []);
      labelLocations, unresolvedAddressLocations, waiting := map[], [], [];
      macros, macroFunctions := {}, {};
      binary.Open();
      slots, definitions, at := [], [], ORIGIN;
      assert Parsing() by { StartsParsing(); }
      SplitStart(lines);
      for i := 0 to |lines|
        invariant Parsing() && macros == {} == macroFunctions
        invariant Split(lines, i, slots, definitions, at, waiting)
        invariant forall j | 0 <= j < i :: Lexes(lines[j])
      {
        var error := ReadLine(lines[i], lines, i);
        if error.Some? {
          ErrorIsReal(error.value, lines, i);
          return Failed(error.value), g;
        }
      }
      SplitEnd(lines, slots, definitions, at, waiting);
      var here := binary.GetLocation();
      assert here == Location(at) by { AtCursor(); }
      var clash := DefineWaiting(here);
      if clash.Some? {
        RedefinedIsReal(clash.value, lines);
        return Failed(Redefined(clash.value)), g;
      }
      assert Patching(0) by { StartsPatching(); }
      var missing := PatchAll();
      if missing.Some? {
        UnresolvedIsReal(missing.value, lines);
        return Failed(Unresolved(missing.value)), g;
      }
      g := Content(binary.View());
      AllSettled(lines, g, slots, labelLocations, unresolvedAddressLocations, at);
      assert DATA_SEGMENT_OFFSET + |PaddedData(g).data| < END by { PaddedFits(lines, g); }
      FinalAlign(binary.View());
      binary.SetLocation(END);
      binary.Align(INSTRUCTION_SIZE);
      var file := binary.Close();
      r := Assembled(file);
    }

    lemma StartsParsing()
      requires binary.View() == EMPTY && at == ORIGIN && slots == [] && definitions == []
      requires labelLocations == map[] && unresolvedAddressLocations == []
      ensures Parsing()
    {
    }

    lemma AtCursor()
      requires Parsing()
      ensures binary.cursor == Location(at)
    {
    }

    lemma StartsPatching()
      requires Parsing()
      ensures Patching(0)
    {
    }

    lemma CodeHoldsHere(e: Emission, word: Word)
      requires Parsing() && IsCode(e) && Size(e) == 4 && Needs(e) == None && Fits(Grow(at, 4))
      requires Decode(word) == Some(Instructions(e, Location(at), labelLocations)[0])
      ensures Holds(Append(Content(binary.View()), at.segment, BytesOf(word)), Slot(Location(at), e), labelLocations)
    {
      CodeHolds(Content(binary.View()), at, e, word, labelLocations);
    }
  }

  /** The definition at `k` is the first to define a name again. */
  predicate ClashAt(ds: seq<Definition>, k: nat) {
    k < |ds| && Distinct(ds[..k]) && exists i | 0 <= i < k :: ds[i].name == ds[k].name
  }

  /** The error is the first there is: a line that cannot be read, with all lines in front of it readable; else
      the first name defined again; else, with all definitions made, a name used that is no label. */
  ghost predicate Explains(error: Error, lines: seq<Line>) {
    match error
    case Unreadable => exists i | 0 <= i < |lines| :: !Lexes(lines[i]) && forall j | 0 <= j < i :: Lexes(lines[j])
    case Redefined(name) => FirstClash(Definitions(lines, ORIGIN, []), name)
    case Unresolved(name) =>
      && (forall i | 0 <= i < |lines| :: Lexes(lines[i]))
      && Distinct(Definitions(lines, ORIGIN, []))
      && exists s | s in Slots(lines, ORIGIN) :: Missing(s.emission, name, Labels(lines))
  }

  /** The name of the first definition that repeats one. */
  ghost predicate FirstClash(ds: seq<Definition>, name: string) {
    exists k: nat :: ClashAt(ds, k) && ds[k].name == name
  }

  lemma ErrorIsReal(error: Error, lines: seq<Line>, i: nat)
    requires i < |lines| && forall j | 0 <= j < i :: Lexes(lines[j])
    requires if Lexes(lines[i]) then error.Redefined? && FirstClash(Definitions(lines, ORIGIN, []), error.name)
             else error == Unreadable
    ensures Explains(error, lines)
    ensures Lexes(lines[i]) ==> !Distinct(Definitions(lines, ORIGIN, []))
  {
    hide Lexes, FirstClash, Definitions, Distinct;
    if Lexes(lines[i]) {
      ClashIsOne(Definitions(lines, ORIGIN, []), error.name);
    }
  }

  lemma RedefinedIsReal(name: string, lines: seq<Line>)
    requires FirstClash(Definitions(lines, ORIGIN, []), name)
    ensures Explains(Redefined(name), lines) && !Distinct(Definitions(lines, ORIGIN, []))
  {
    hide FirstClash, Definitions, Distinct;
    ClashIsOne(Definitions(lines, ORIGIN, []), name);
  }

  lemma UnresolvedIsReal(name: string, lines: seq<Line>)
    requires (forall i | 0 <= i < |lines| :: Lexes(lines[i])) && Distinct(Definitions(lines, ORIGIN, []))
    requires exists s | s in Slots(lines, ORIGIN) :: Missing(s.emission, name, Labels(lines))
    ensures Explains(Unresolved(name), lines)
    ensures exists s | s in Slots(lines, ORIGIN) :: !Resolvable(s.emission, Labels(lines))
  {
    hide Lexes, Definitions, Distinct, Slots, Labels;
    var s :| s in Slots(lines, ORIGIN) && Missing(s.emission, name, Labels(lines));
    assert !Resolvable(s.emission, Labels(lines));
  }

  lemma ClashIsOne(ds: seq<Definition>, name: string)
    requires FirstClash(ds, name)
    ensures !Distinct(ds)
  {
    var k: nat :| ClashAt(ds, k) && ds[k].name == name;
    var i :| 0 <= i < k && ds[i].name == ds[k].name;
  }

  lemma NotEarlier(ds: seq<Definition>, j: nat, k: nat)
    requires ClashAt(ds, j) && j < k <= |ds|
    ensures !Distinct(ds[..k])
  {
    var i :| 0 <= i < j && ds[i].name == ds[j].name;
    assert ds[..k][i] == ds[i] && ds[..k][j] == ds[j];
  }

  /** There is only one such name. */
  lemma ClashIsUnique(ds: seq<Definition>, a: string, b: string)
    requires FirstClash(ds, a) && FirstClash(ds, b)
    ensures a == b
  {
    var j: nat :| ClashAt(ds, j) && ds[j].name == a;
    var k: nat :| ClashAt(ds, k) && ds[k].name == b;
    if j < k {
      NotEarlier(ds, j, k);
    } else if k < j {
      NotEarlier(ds, k, j);
    }
  }

  /** The next waiting name is in the table already. */
  lemma {:induction false} ClashAmong(before: seq<Definition>, names: seq<string>, location: nat, k: nat)
    requires k < |names| && names[k] in EnvironmentOf(before + Bind(names, location)[..k])
    requires Distinct(before + Bind(names, location)[..k])
    ensures FirstClash(before + Bind(names, location), names[k])
  {
    hide EnvironmentOf;
    var so, all := before + Bind(names, location)[..k], before + Bind(names, location);
    DefinedNames(so);
    var i :| 0 <= i < |so| && so[i].name == names[k];
    assert all[..|so|] == so;
    assert all[i].name == names[k] == all[|so|].name;
    assert ClashAt(all, |so|);
  }

  lemma {:induction false} DefinedNames(ds: seq<Definition>)
    ensures forall n :: n in EnvironmentOf(ds) <==> exists i | 0 <= i < |ds| :: ds[i].name == n
  {
    if ds != [] {
      var k := |ds| - 1;
      var init := ds[..k];
      DefinedNames(init);
      forall n ensures n in EnvironmentOf(ds) <==> exists i | 0 <= i < |ds| :: ds[i].name == n {
        if i: int :| 0 <= i < |ds| && ds[i].name == n && i < k {
          assert init[i].name == n;
        }
        if n in EnvironmentOf(init) {
          var i :| 0 <= i < |init| && init[i].name == n;
          assert ds[i].name == n;
        }
      }
    }
  }
}

/** An assembled program, loaded, is linked: its text decodes to the listing of its lines, and its
    labels are where the lines are. */
module Linking {
  import opened Words
  import opened Isa
  import opened Machine
  import opened Assembly
  import opened Builder
  import opened Loading
  import opened Execution
  import opened Fragments

  predicate InText(line: Line, c: Cursor) {
    c.segment.TextSegment? && Emits(line)
  }

  /** The instructions of all lines of the text segment, in order. */
  function TextListing(lines: seq<Line>, c: Cursor, env: Environment): seq<Instr> {
    if lines == [] then []
    else
      (if InText(lines[0], c) then LineCode(lines[0], c, env) else [])
      + TextListing(lines[1..], Next(lines[0], c), env)
  }

  /** No `.word`: a label is where its line is. */
  predicate Unaligned(lines: seq<Line>) {
    forall i | 0 <= i < |lines| :: !lines[i].WordDirective?
  }

  lemma LineSize(line: Line, c: Cursor, env: Environment)
    requires IsDatum(line) ==> c.segment.DataSegment?
    ensures Next(line, c).text == c.text + 4 * |if InText(line, c) then LineCode(line, c, env) else []|
  {
    hide Expand, Instructions, Gap, Pow2;
    if line.Label? {
      LabelIsEmpty(line.name, c);
    } else if InText(line, c) {
      SizeOfCode(Expand(line), c.text, env);
    }
  }

  lemma {:induction false} ListingSize(lines: seq<Line>, c: Cursor, env: Environment)
    requires Proper(lines, c)
    ensures End(lines, c).text == c.text + 4 * |TextListing(lines, c, env)|
  {
    hide LineCode, Next;
    if lines != [] {
      LineSize(lines[0], c, env);
      ListingSize(lines[1..], Next(lines[0], c), env);
    }
  }

  predicate Agrees(ds: seq<Definition>, env: Environment) {
    forall i | 0 <= i < |ds| :: ds[i].name in env && env[ds[i].name] == ds[i].location
  }

  /** With distinct names the label table is the list of definitions. */
  lemma {:induction false} TableAgrees(ds: seq<Definition>)
    requires Distinct(ds)
    ensures Agrees(ds, EnvironmentOf(ds))
  {
    if ds != [] {
      var k := |ds| - 1;
      TableAgrees(ds[..k]);
      forall i | 0 <= i < |ds|
        ensures ds[i].name in EnvironmentOf(ds) && EnvironmentOf(ds)[ds[i].name] == ds[i].location
      {
        if i < k {
          assert ds[..k][i] == ds[i];
        }
      }
    }
  }

  /** The reference's slots and definitions say just what linking needs. */
  lemma {:induction false} LinkLines(w: World, lines: seq<Line>, c: Cursor, waiting: seq<string>, before: seq<Instr>)
    requires Agrees(Definitions(lines, c, waiting), w.env) && Unaligned(lines) && Proper(lines, c)
    requires forall s | s in Slots(lines, c) :: Resolvable(s.emission, w.env)
    requires w.code == before + TextListing(lines, c, w.env) && c.text == 4 * |before|
    ensures Linked(w, lines, c)
    ensures forall i | 0 <= i < |waiting| :: waiting[i] in w.env && w.env[waiting[i]] == Location(c)
  {
    hide LineCode, Next, Emissions, Resolvable, Agrees, LineLinked;
    if lines == [] {
      assert Bind(waiting, Location(c)) == Bind(waiting, Location(c)) + [];
      BoundHere(w.env, waiting, Location(c), []);
    } else {
      var line, rest, c' := lines[0], lines[1..], Next(lines[0], c);
      var code := if InText(line, c) then LineCode(line, c, w.env) else [];
      LineSize(line, c, w.env);
      SlotsOfRest(lines, c, w.env);
      assert w.code == (before + code) + TextListing(rest, c', w.env);
      if line.Label? {
        LabelIsEmpty(line.name, c);
        LinkLines(w, rest, c', [line.name] + waiting, before + code);
        LinkLabel(w, line, c, waiting);
      } else {
        BoundHere(w.env, waiting, Start(line, c), Definitions(rest, c', []));
        LinkLines(w, rest, c', [], before + code);
        SlotsOfLine(lines, c, w.env);
        LinkCode(w, line, c, before, TextListing(rest, c', w.env));
      }
    }
  }

  lemma LinkLabel(w: World, line: Line, c: Cursor, waiting: seq<string>)
    requires line.Label?
    requires var all := [line.name] + waiting;
      forall i | 0 <= i < |all| :: all[i] in w.env && w.env[all[i]] == Location(c)
    ensures LineLinked(w, line, c)
    ensures forall i | 0 <= i < |waiting| :: waiting[i] in w.env && w.env[waiting[i]] == Location(c)
  {
    var all := [line.name] + waiting;
    assert all[0] == line.name;
    forall i | 0 <= i < |waiting| ensures waiting[i] in w.env && w.env[waiting[i]] == Location(c) {
      assert all[i + 1] == waiting[i];
    }
  }

  lemma LinkCode(w: World, line: Line, c: Cursor, before: seq<Instr>, after: seq<Instr>)
    requires !line.Label? && c.text == 4 * |before|
    requires w.code == before + (if InText(line, c) then LineCode(line, c, w.env) else []) + after
    requires forall i | 0 <= i < |Emissions(line, c)| :: Resolvable(Emissions(line, c)[i], w.env)
    ensures LineLinked(w, line, c)
  {
    hide LineCode, Emissions, Resolvable;
    if c.segment.TextSegment? && !Emits(line) {
      NothingFromDirectives(line, c, w.env);
    }
  }

  lemma NothingFromDirectives(line: Line, c: Cursor, env: Environment)
    requires !Emits(line)
    ensures LineCode(line, c, env) == []
  {
  }

  lemma BoundHere(env: Environment, names: seq<string>, location: nat, more: seq<Definition>)
    requires Agrees(Bind(names, location) + more, env)
    ensures forall i | 0 <= i < |names| :: names[i] in env && env[names[i]] == location
    ensures Agrees(more, env)
  {
    var ds := Bind(names, location) + more;
    forall i | 0 <= i < |names| ensures names[i] in env && env[names[i]] == location {
      assert ds[i] == Definition(names[i], location);
    }
    forall i | 0 <= i < |more| ensures more[i].name in env && env[more[i].name] == more[i].location {
      assert ds[|names| + i] == more[i];
    }
  }

  lemma SlotsOfRest(lines: seq<Line>, c: Cursor, env: Environment)
    requires lines != [] && forall s | s in Slots(lines, c) :: Resolvable(s.emission, env)
    ensures forall s | s in Slots(lines[1..], Next(lines[0], c)) :: Resolvable(s.emission, env)
  {
    hide Next, Emissions, Resolvable;
  }

  lemma SlotsOfLine(lines: seq<Line>, c: Cursor, env: Environment)
    requires lines != [] && forall s | s in Slots(lines, c) :: Resolvable(s.emission, env)
    ensures forall i | 0 <= i < |Emissions(lines[0], c)| :: Resolvable(Emissions(lines[0], c)[i], env)
  {
    hide Next, Emissions, Resolvable;
    var es := Emissions(lines[0], c);
    forall i | 0 <= i < |es| ensures Resolvable(es[i], env) {
      var s := Arranged(es, Location(c), i);
      assert s in Slots(lines, c);
    }
  }

  lemma {:induction false} Arranged(es: seq<Emission>, location: nat, i: nat) returns (s: Slot)
    requires i < |es|
    ensures s in Arrange(es, location) && s == Slot(location + TotalSize(es[..i]), es[i])
  {
    if i == 0 {
      s := Slot(location, es[0]);
    } else {
      s := Arranged(es[1..], location + Size(es[0]), i - 1);
      assert es[..i][1..] == es[1..][..i - 1];
    }
  }

  // ----- text -----

  lemma {:induction false} CodeDecodes(g: Segments, es: seq<Emission>, location: nat, env: Environment)
    requires forall s | s in Arrange(es, location) :: Holds(g, s, env)
    requires forall i | 0 <= i < |es| :: IsCode(es[i])
    ensures forall j | 0 <= j < |Listing(es, location, env)| :: Decodes(g, location + 4 * j, Listing(es, location, env)[j])
  {
    hide Holds, Decodes, Instructions, Size;
    if es != [] {
      var next := location + Size(es[0]);
      var head, tail := Instructions(es[0], location, env), Listing(es[1..], next, env);
      var s := Slot(location, es[0]);
      assert s in Arrange(es, location);
      CodeDecodes(g, es[1..], next, env);
      SizeOfInstructions(es[0], location, env);
      forall j | 0 <= j < |head + tail| ensures Decodes(g, location + 4 * j, (head + tail)[j]) {
        if j < |head| {
          HeldCode(g, s, env, j);
        } else {
          assert Decodes(g, next + 4 * (j - |head|), tail[j - |head|]);
        }
      }
    }
  }

  lemma SizeOfInstructions(e: Emission, location: nat, env: Environment)
    requires IsCode(e)
    ensures Size(e) == 4 * |Instructions(e, location, env)|
  {
  }

  lemma HeldCode(g: Segments, s: Slot, env: Environment, j: nat)
    requires Holds(g, s, env) && IsCode(s.emission) && j < |Instructions(s.emission, s.location, env)|
    ensures Decodes(g, s.location + 4 * j, Instructions(s.emission, s.location, env)[j])
  {
    hide Decodes, Resolvable;
  }

  lemma LineDecodes(g: Segments, line: Line, c: Cursor, env: Environment)
    requires InText(line, c) && !IsDatum(line)
    requires forall s | s in Arrange(Emissions(line, c), Location(c)) :: Holds(g, s, env)
    ensures forall j | 0 <= j < |LineCode(line, c, env)| :: Decodes(g, c.text + 4 * j, LineCode(line, c, env)[j])
  {
    hide Holds, Decodes, Expand, Listing, Arrange;
    CodeDecodes(g, Expand(line), c.text, env);
  }

  lemma {:induction false} TextDecodes(g: Segments, lines: seq<Line>, c: Cursor, env: Environment)
    requires Proper(lines, c) && forall s | s in Slots(lines, c) :: Holds(g, s, env)
    ensures forall j | 0 <= j < |TextListing(lines, c, env)| :: Decodes(g, c.text + 4 * j, TextListing(lines, c, env)[j])
  {
    hide Holds, Decodes, Next, Emissions, LineCode, Listing, Arrange;
    if lines != [] {
      var line, c' := lines[0], Next(lines[0], c);
      var head := if InText(line, c) then LineCode(line, c, env) else [];
      var tail := TextListing(lines[1..], c', env);
      LineSize(line, c, env);
      TextDecodes(g, lines[1..], c', env);
      if InText(line, c) {
        LineDecodes(g, line, c, env);
      }
      forall j | 0 <= j < |head + tail| ensures Decodes(g, c.text + 4 * j, (head + tail)[j]) {
        if j >= |head| {
          assert Decodes(g, c'.text + 4 * (j - |head|), tail[j - |head|]);
        }
      }
    }
  }

  /** Segments that read the same wherever others are defined hold the same slots. */
  predicate Covers(g: Segments, g': Segments) {
    g.text == g'.text && |g.data| <= |g'.data| && g'.data[..|g.data|] == g.data
  }

  lemma HoldsInLonger(g: Segments, g': Segments, s: Slot, env: Environment)
    requires Covers(g, g') && Holds(g, s, env)
    ensures Holds(g', s, env)
  {
    hide Decodes, Resolvable, Instructions, WordIn, ByteIn;
    var more := g'.data[|g.data|..];
    assert g' == g.(data := g.data + more);
    LongerAt(g, more, s.location);
    if IsCode(s.emission) {
      var code := Instructions(s.emission, s.location, env);
      forall j | 0 <= j < |code| ensures Decodes(g', s.location + 4 * j, code[j]) {
        HeldCode(g, s, env, j);
        DecodesInLonger(g, more, s.location + 4 * j, code[j]);
      }
    }
  }

  lemma DecodesInLonger(g: Segments, more: seq<Byte>, location: nat, i: Instr)
    requires Decodes(g, location, i)
    ensures Decodes(g.(data := g.data + more), location, i)
  {
    hide WordIn, Decode;
    LongerAt(g, more, location);
  }

  lemma LongerAt(g: Segments, more: seq<Byte>, location: nat)
    ensures var g' := g.(data := g.data + more);
      && (ByteIn(g, location).Some? ==> ByteIn(g', location) == ByteIn(g, location))
      && (WordIn(g, location).Some? ==> WordIn(g', location) == WordIn(g, location))
  {
    hide WordOf;
    var i := location - DATA_SEGMENT_OFFSET;
    if location >= DATA_SEGMENT_OFFSET && i + 4 <= |g.data| {
      assert (g.data + more)[i..i + 4] == g.data[i..i + 4];
    }
  }

  /** The loaded image of an assembly is the linked program. */
  lemma LoadedImage(g: Segments, lines: seq<Line>, code: seq<Instr>, stack: seq<Byte>, global: seq<Byte>)
    requires |g.text| == End(lines, ORIGIN).text && forall s | s in Slots(lines, ORIGIN) :: Holds(g, s, Labels(lines))
    requires Proper(lines, ORIGIN) && code == TextListing(lines, ORIGIN, Labels(lines))
    requires |g.text| < BRANCH_RANGE && DATA_SEGMENT_OFFSET + |g.data| < END
    ensures |FileOf(g)| >= HEADER_SIZE && Loaded(code, Opened(FileOf(g), stack, global))
  {
    hide Decode, FileOf, Opened, WordIn, ReadWord, Holds, Slots, Labels, End, TextListing, Proper;
    var env := Labels(lines);
    ListingSize(lines, ORIGIN, env);
    TextDecodes(g, lines, ORIGIN, env);
    OpenedImage(g, stack, global);
    var m := Opened(FileOf(g), stack, global);
    forall i | 0 <= i < |code| ensures ReadWord(m, 4 * i).Some? && Decode(ReadWord(m, 4 * i).value) == Some(code[i]) {
      assert Decodes(g, ORIGIN.text + 4 * i, code[i]);
      LayoutAgrees(g, stack, global, 4 * i);
    }
  }

  // ----- pc-relative operands on the machine -----

  predicate IsRelative(e: Emission) {
    e.PutAccess? || e.PutBranch2? || e.PutBranch1?
  }

  /** Label plus offset, as the program means it. */
  function OperandOf(e: Emission, env: Environment): int
    requires IsRelative(e)
  {
    match e
    case PutAccess(_, _, address) => AddressBase(address, env) + address.offset
    case PutBranch2(_, _, _, target) => ValueOf(target, env)
    case PutBranch1(_, _, target) => ValueOf(target, env)
  }

  /** The register a load or store adds; branches add none. */
  function BaseOf(e: Emission, s: State): Word
    requires IsRelative(e)
  {
    if e.PutAccess? then s.regs[e.address.reg] else 0
  }

  function Offset(i: Instr): int {
    match i
    case InsRRA(_, _, _, off) => off
    case InsRA(_, _, off) => off
    case _ => 0
  }

  /** At a slot that holds, the machine executes the reference's instruction, and the address it works out
      is label plus offset plus register exactly when the label and offset are within reach of the slot. */
  lemma {:induction false} OperandResolves(g: Segments, slot: Slot, env: Environment, s: State) returns (i: Instr)
    requires IsRelative(slot.emission) && Holds(g, slot, env)
    requires s.pc == slot.location && ReadWord(s.mem, s.pc) == WordIn(g, slot.location)
    ensures [i] == Instructions(slot.emission, slot.location, env) && Step(s) == Execute(i, s)
    ensures var e := slot.emission;
      ResolveOffset(s, BaseOf(e, s), Offset(i)) == Wrap(OperandOf(e, env) + BaseOf(e, s))
      <==> -0x8000 <= Signed(Wrap(OperandOf(e, env) - s.pc)) < 0x8000
  {
    hide Decode, ReadWord, WordIn, Execute, Distance;
    var code := Instructions(slot.emission, slot.location, env);
    i := code[0];
    assert Decodes(g, slot.location + 4 * 0, code[0]);
    RelativeAddress(OperandOf(slot.emission, env), s.pc, BaseOf(slot.emission, s));
  }
}

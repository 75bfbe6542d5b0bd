/** What a label in front of a statement is worth, and what the image holds there: for every statement, in
    bytes and words of any image of the program. */
module DirectiveLaws {
  import opened Words
  import opened Isa
  import opened Machine
  import opened Assembly
  import opened Execution
  import opened Fragments
  import opened Linking
  import Assembler
  import Declarations

  /** A label with nothing but labels between it and the statement at `j`. */
  predicate LabelOf(lines: seq<Line>, x: string, i: nat, j: nat) {
    && i < j < |lines| && lines[i] == Label(x) && !lines[j].Label?
    && forall m | i < m < j :: lines[m].Label?
  }

  /** Where the statement at `j` finds the cursor. */
  function CursorAt(lines: seq<Line>, j: nat): Cursor
    requires j <= |lines|
  {
    End(lines[..j], ORIGIN)
  }

  function Here(lines: seq<Line>, j: nat): nat
    requires j <= |lines|
  {
    Location(CursorAt(lines, j))
  }

  // ----- definitions -----

  lemma {:induction false} WaitingDefined(lines: seq<Line>, c: Cursor, waiting: seq<string>, x: string, j: nat)
    requires j < |lines| && !lines[j].Label? && x in waiting && forall m | 0 <= m < j :: lines[m].Label?
    ensures Definition(x, Start(lines[j], c)) in Definitions(lines, c, waiting)
    ensures End(lines[..j], c) == c
    decreases j
  {
    hide Start, Next;
    if j == 0 {
      var k :| 0 <= k < |waiting| && waiting[k] == x;
      assert Bind(waiting, Start(lines[0], c))[k] == Definition(x, Start(lines[0], c));
    } else {
      LabelIsEmpty(lines[0].name, c);
      WaitingDefined(lines[1..], c, [lines[0].name] + waiting, x, j - 1);
      assert lines[..j][1..] == lines[1..][..j - 1];
    }
  }

  lemma {:induction false} LabelDefined(lines: seq<Line>, c: Cursor, waiting: seq<string>, x: string, i: nat, j: nat)
    requires LabelOf(lines, x, i, j)
    ensures Definition(x, Start(lines[j], End(lines[..j], c))) in Definitions(lines, c, waiting)
    decreases i
  {
    hide Start, Next;
    assert lines[..j][1..] == lines[1..][..j - 1];
    if lines[0].Label? {
      LabelIsEmpty(lines[0].name, c);
    }
    if i == 0 {
      WaitingDefined(lines[1..], c, [x] + waiting, x, j - 1);
    } else {
      var more := if lines[0].Label? then [lines[0].name] + waiting else [];
      LabelDefined(lines[1..], Next(lines[0], c), more, x, i - 1, j - 1);
    }
  }

  lemma {:induction false} LabelValue(lines: seq<Line>, x: string, i: nat, j: nat)
    requires LabelOf(lines, x, i, j) && Distinct(Definitions(lines, ORIGIN, []))
    ensures x in Labels(lines) && Labels(lines)[x] == Start(lines[j], CursorAt(lines, j))
  {
    hide Start, End, Definitions, Distinct;
    var ds := Definitions(lines, ORIGIN, []);
    LabelDefined(lines, ORIGIN, [], x, i, j);
    TableAgrees(ds);
    var k :| 0 <= k < |ds| && ds[k] == Definition(x, Start(lines[j], CursorAt(lines, j)));
    assert ds[k].name == x;
  }

  /** A label in front of any statement but `.word` is worth the location the statement finds. */
  lemma {:induction false} LabelHere(lines: seq<Line>, x: string, i: nat, j: nat)
    requires LabelOf(lines, x, i, j) && Distinct(Definitions(lines, ORIGIN, [])) && !lines[j].WordDirective?
    ensures x in Labels(lines) && Labels(lines)[x] == Here(lines, j)
  {
    hide End;
    LabelValue(lines, x, i, j);
  }

  /** A label in front of `.word` is worth the first address divisible by four that is not below. */
  lemma {:induction false} WordLabel(lines: seq<Line>, x: string, i: nat, j: nat)
    requires LabelOf(lines, x, i, j) && Distinct(Definitions(lines, ORIGIN, [])) && lines[j].WordDirective?
    ensures x in Labels(lines) && FirstMultiple(Labels(lines)[x], 4, Here(lines, j))
  {
    hide End, Labels, FirstMultiple, Start;
    LabelValue(lines, x, i, j);
    WordStart(lines[j], CursorAt(lines, j));
  }

  lemma {:induction false} WordStart(line: Line, c: Cursor)
    requires line.WordDirective?
    ensures FirstMultiple(Start(line, c), 4, Location(c))
  {
    hide Gap;
    GapToFirst(Location(c), 4);
  }

  // ----- multiples -----

  /** The least multiple of `n` not below `from`. */
  predicate FirstMultiple(v: int, n: int, from: int)
    requires n > 0
  {
    v % n == 0 && from <= v < from + n
  }

  lemma {:induction false} GapToFirst(location: nat, n: nat)
    requires n > 0
    ensures FirstMultiple(location + Gap(location, n), n, location)
  {
  }

  lemma {:induction false} FirstIsUnique(v: int, w: int, n: int, from: int)
    requires n > 0 && FirstMultiple(v, n, from) && FirstMultiple(w, n, from)
    ensures v == w
  {
    var d := v / n - w / n;
    assert v == (v / n) * n + v % n && w == (w / n) * n + w % n;
    assert d * n == (v / n) * n - (w / n) * n;
    if d != 0 {
      NoMultipleBetween(d, n);
    }
  }

  lemma {:induction false} NoneBelowFirst(v: int, n: int, from: int, l: int)
    requires n > 0 && FirstMultiple(v, n, from) && from <= l < v
    ensures l % n != 0
  {
    if l % n == 0 {
      FirstIsUnique(v, l, n, from);
    }
  }

  // ----- contents -----

  /** What one emission of a line puts into any image. */
  lemma {:induction false} EmissionHeld(g: Segments, lines: seq<Line>, j: nat, k: nat)
    requires Realises(g, lines) && j < |lines| && k < |Emissions(lines[j], CursorAt(lines, j))|
    ensures var es := Emissions(lines[j], CursorAt(lines, j));
      Holds(g, Slot(Here(lines, j) + TotalSize(es[..k]), es[k]), Labels(lines))
  {
    hide Holds, Emissions, TotalSize, Arrange, Labels, Next, End;
    var c, es := CursorAt(lines, j), Emissions(lines[j], CursorAt(lines, j));
    assert lines == lines[..j] + lines[j..];
    Declarations.SlotsAppend(lines[..j], lines[j..], ORIGIN);
    var s := Arranged(es, Location(c), k);
    assert s in Slots(lines[j..], c);
    assert s in Slots(lines, ORIGIN);
  }

  lemma {:induction false} SameSizes(es: seq<Emission>, size: nat, k: nat)
    requires k <= |es| && forall i | 0 <= i < |es| :: Size(es[i]) == size
    ensures TotalSize(es[..k]) == size * k
    decreases k
  {
    hide Size;
    if k > 0 {
      assert es[..k][1..] == es[1..][..k - 1];
      SameSizes(es[1..], size, k - 1);
    }
  }

  /** The lowest byte, or the word, that an item stands for. */
  function ItemValue(item: Item, env: Environment): int {
    match item
    case Literal(n) => n
    case Reference(target) => ValueOf(target, env)
  }

  /** The directives that put single bytes. */
  predicate PutsBytes(line: Line) {
    line.ByteDirective? || line.AsciiDirective? || line.AsciizDirective? || line.SpaceDirective? || line.AlignDirective?
  }

  function ByteCount(line: Line, c: Cursor): nat
    requires PutsBytes(line)
  {
    match line
    case ByteDirective(items) => |items|
    case AsciiDirective(bytes) => |bytes|
    case AsciizDirective(bytes) => |bytes| + 1
    case SpaceDirective(x) => x % 0x1_0000_0000
    case AlignDirective(x) => Gap(Location(c), Pow2(Wrap(x)))
  }

  lemma {:induction false} ByteSizes(line: Line, c: Cursor)
    requires PutsBytes(line)
    ensures var es := Emissions(line, c);
      |es| == ByteCount(line, c) && forall k | 0 <= k < |es| :: Size(es[k]) == 1
  {
  }

  /** The byte emissions of a line are one behind the other. */
  lemma {:induction false} ByteHeld(g: Segments, lines: seq<Line>, j: nat, k: nat)
    requires Realises(g, lines) && j < |lines| && PutsBytes(lines[j]) && k < ByteCount(lines[j], CursorAt(lines, j))
    ensures k < |Emissions(lines[j], CursorAt(lines, j))|
    ensures Holds(g, Slot(Here(lines, j) + k, Emissions(lines[j], CursorAt(lines, j))[k]), Labels(lines))
  {
    hide Holds, Emissions, End, Labels, Realises, ByteCount, TotalSize;
    ByteSizes(lines[j], CursorAt(lines, j));
    EmissionHeld(g, lines, j, k);
    SameSizes(Emissions(lines[j], CursorAt(lines, j)), 1, k);
  }

  /** `.byte`: each item's low byte, one behind the other. */
  lemma {:induction false} Bytes(g: Segments, lines: seq<Line>, j: nat, k: nat)
    requires Realises(g, lines) && j < |lines| && lines[j].ByteDirective? && k < |lines[j].items|
    ensures ByteIn(g, Here(lines, j) + k) == Some(ItemValue(lines[j].items[k], Labels(lines)) % 0x100)
    ensures lines[j].items[k].Reference? ==> lines[j].items[k].target in Labels(lines)
  {
    hide ByteIn, End, Labels, Realises;
    ByteHeld(g, lines, j, k);
  }

  /** `.ascii` and `.asciiz`: the characters, for `.asciiz` with a zero behind. */
  lemma {:induction false} Text(g: Segments, lines: seq<Line>, j: nat, k: nat)
    requires Realises(g, lines) && j < |lines| && (lines[j].AsciiDirective? || lines[j].AsciizDirective?)
    requires k < |lines[j].bytes| || (lines[j].AsciizDirective? && k == |lines[j].bytes|)
    ensures ByteIn(g, Here(lines, j) + k) == Some(if k < |lines[j].bytes| then lines[j].bytes[k] else 0)
  {
    hide ByteIn, End, Labels, Realises;
    ByteHeld(g, lines, j, k);
  }

  /** `.space`: as many zeros. */
  lemma {:induction false} Space(g: Segments, lines: seq<Line>, j: nat, k: nat)
    requires Realises(g, lines) && j < |lines| && lines[j].SpaceDirective? && k < lines[j].x % 0x1_0000_0000
    ensures ByteIn(g, Here(lines, j) + k) == Some(0)
  {
    hide ByteIn, End, Labels, Realises;
    ByteHeld(g, lines, j, k);
  }

  /** `.align`: zeros up to the first multiple of that power of two that is not below, and the cursor there. */
  lemma {:induction false} Align(g: Segments, lines: seq<Line>, j: nat)
    requires Realises(g, lines) && j < |lines| && lines[j].AlignDirective? && 0 <= lines[j].x < 32
    ensures var v := Location(Next(lines[j], CursorAt(lines, j)));
      && FirstMultiple(v, Pow2(lines[j].x), Here(lines, j))
      && (forall l | Here(lines, j) <= l < v :: l % Pow2(lines[j].x) != 0 && ByteIn(g, l) == Some(0))
  {
    hide ByteIn, End, Labels, Realises, Gap, Next, FirstMultiple, Pow2;
    var c, from := CursorAt(lines, j), Here(lines, j);
    var v := Location(Next(lines[j], c));
    AlignedCursor(lines[j], c);
    forall l | from <= l < v ensures l % Pow2(lines[j].x) != 0 && ByteIn(g, l) == Some(0) {
      NoneBelowFirst(v, Pow2(lines[j].x), from, l);
      var k := l - from;
      ByteHeld(g, lines, j, k);
    }
  }

  lemma {:induction false} AlignedCursor(line: Line, c: Cursor)
    requires line.AlignDirective? && 0 <= line.x < 32
    ensures Location(Next(line, c)) == Location(c) + ByteCount(line, c)
    ensures FirstMultiple(Location(Next(line, c)), Pow2(line.x), Location(c))
  {
    hide Gap, Emissions, FirstMultiple, Pow2;
    GapToFirst(Location(c), Pow2(line.x));
    ByteTotal(line, c);
  }

  lemma {:induction false} ByteTotal(line: Line, c: Cursor)
    requires PutsBytes(line)
    ensures TotalSize(Emissions(line, c)) == ByteCount(line, c)
  {
    hide Emissions, ByteCount, TotalSize;
    var es := Emissions(line, c);
    ByteSizes(line, c);
    SameSizes(es, 1, |es|);
    assert es[..|es|] == es;
  }

  /** The words of `.word`, as emissions. */
  lemma {:induction false} WordSizes(line: Line, c: Cursor, k: nat)
    requires line.WordDirective? && k <= |line.items|
    ensures var es, lead := Emissions(line, c), Gap(Location(c), 4);
      |es| == lead + |line.items| && TotalSize(es[..lead + k]) == lead + 4 * k
      && (k < |line.items| ==> es[lead + k] == WordItem(line.items[k]))
  {
    hide TotalSize, Gap;
    var es, lead := Emissions(line, c), Gap(Location(c), 4);
    var zeros, items := Zeros(lead), WordItems(line.items);
    assert es[..lead + k] == zeros + items[..k];
    Assembler.ArrangeAppend(zeros, items[..k], 0);
    ZerosSize(lead);
    SameSizes(items, 4, k);
  }

  /** `.word`: from the first address divisible by four on, every item's word; in front of that, zeros. */
  lemma {:induction false} WordHeld(g: Segments, lines: seq<Line>, j: nat, v: nat, k: nat)
    requires Realises(g, lines) && j < |lines| && lines[j].WordDirective? && FirstMultiple(v, 4, Here(lines, j))
    requires k < |lines[j].items|
    ensures WordIn(g, v + 4 * k) == Some(ItemValue(lines[j].items[k], Labels(lines)) % 0x1_0000_0000)
    ensures lines[j].items[k].Reference? ==> lines[j].items[k].target in Labels(lines)
  {
    hide WordIn, End, Labels, Realises, Gap, FirstMultiple, Emissions, TotalSize;
    var c := CursorAt(lines, j);
    GapToFirst(Location(c), 4);
    FirstIsUnique(v, Location(c) + Gap(Location(c), 4), 4, Location(c));
    WordSizes(lines[j], c, k);
    EmissionHeld(g, lines, j, Gap(Location(c), 4) + k);
  }

  lemma {:induction false} WordPadding(g: Segments, lines: seq<Line>, j: nat, v: nat, l: nat)
    requires Realises(g, lines) && j < |lines| && lines[j].WordDirective? && FirstMultiple(v, 4, Here(lines, j))
    requires Here(lines, j) <= l < v
    ensures ByteIn(g, l) == Some(0)
  {
    hide ByteIn, End, Labels, Realises, Gap, FirstMultiple, TotalSize;
    var c := CursorAt(lines, j);
    var lead, k := Gap(Location(c), 4), l - Here(lines, j);
    GapToFirst(Location(c), 4);
    FirstIsUnique(v, Location(c) + lead, 4, Location(c));
    EmissionHeld(g, lines, j, k);
    assert Emissions(lines[j], c)[..k] == Zeros(k);
    ZerosSize(k);
  }

  /** Instructions: the words of the statement decode to what the reference lists for it. */
  lemma {:induction false} CodeHeld(g: Segments, lines: seq<Line>, j: nat, k: nat)
    requires Realises(g, lines) && j < |lines| && !IsDatum(lines[j])
    requires k < |Listing(Expand(lines[j]), Here(lines, j), Labels(lines))|
    ensures Decodes(g, Here(lines, j) + 4 * k, Listing(Expand(lines[j]), Here(lines, j), Labels(lines))[k])
  {
    hide Holds, Decodes, End, Labels, Expand, Arrange, Listing, Next;
    var c := CursorAt(lines, j);
    assert lines == lines[..j] + lines[j..];
    Declarations.SlotsAppend(lines[..j], lines[j..], ORIGIN);
    assert forall s | s in Arrange(Emissions(lines[j], c), Location(c)) :: s in Slots(lines[j..], c);
    assert Emissions(lines[j], c) == Expand(lines[j]);
    CodeDecodes(g, Expand(lines[j]), Location(c), Labels(lines));
  }

  // ----- at the label -----

  /** The label of a non-empty `.word` names its first item, aligned: a word load through it gets the item. */
  lemma {:induction false} FirstWord(g: Segments, lines: seq<Line>, x: string, i: nat, j: nat)
    requires Realises(g, lines) && Distinct(Definitions(lines, ORIGIN, []))
    requires LabelOf(lines, x, i, j) && lines[j].WordDirective? && lines[j].items != []
    ensures x in Labels(lines) && Labels(lines)[x] % 4 == 0
    ensures WordIn(g, Labels(lines)[x]) == Some(ItemValue(lines[j].items[0], Labels(lines)) % 0x1_0000_0000)
  {
    hide WordIn, End, Labels, Realises, Definitions, Distinct, ItemValue;
    WordLabel(lines, x, i, j);
    WordHeld(g, lines, j, Labels(lines)[x], 0);
  }

  /** The label of a `.byte` or a string names its first byte. */
  lemma {:induction false} FirstByte(g: Segments, lines: seq<Line>, x: string, i: nat, j: nat)
    requires Realises(g, lines) && Distinct(Definitions(lines, ORIGIN, [])) && LabelOf(lines, x, i, j)
    requires || (lines[j].ByteDirective? && lines[j].items != [])
             || ((lines[j].AsciiDirective? || lines[j].AsciizDirective?) && lines[j].bytes != [])
    ensures x in Labels(lines)
    ensures ByteIn(g, Labels(lines)[x])
      == Some(if lines[j].ByteDirective? then ItemValue(lines[j].items[0], Labels(lines)) % 0x100 else lines[j].bytes[0])
  {
    hide ByteIn, End, Labels, Realises, Definitions, Distinct, ItemValue;
    LabelHere(lines, x, i, j);
    if lines[j].ByteDirective? {
      Bytes(g, lines, j, 0);
    } else {
      Text(g, lines, j, 0);
    }
  }

  /** The label of an instruction names its first word, which decodes to it. */
  lemma {:induction false} FirstInstruction(g: Segments, lines: seq<Line>, x: string, i: nat, j: nat)
    requires Realises(g, lines) && Distinct(Definitions(lines, ORIGIN, [])) && LabelOf(lines, x, i, j)
    requires !IsDatum(lines[j]) && Listing(Expand(lines[j]), Here(lines, j), Labels(lines)) != []
    ensures x in Labels(lines)
    ensures Decodes(g, Labels(lines)[x], Listing(Expand(lines[j]), Labels(lines)[x], Labels(lines))[0])
  {
    hide Decodes, End, Labels, Realises, Definitions, Distinct, Expand, Listing;
    LabelHere(lines, x, i, j);
    CodeHeld(g, lines, j, 0);
  }

  // ----- sizes -----

  /** How far each directive of the data segment moves the cursor; instructions take four bytes each. */
  lemma {:induction false} Sizes(line: Line, c: Cursor)
    requires c.segment.DataSegment? && (PutsBytes(line) || line.WordDirective?)
    ensures Next(line, c) == c.(data := Next(line, c).data)
    ensures PutsBytes(line) ==> Location(Next(line, c)) == Location(c) + ByteCount(line, c)
    ensures line.WordDirective? ==>
      FirstMultiple(Location(Next(line, c)) - 4 * |line.items|, 4, Location(c))
  {
    hide Gap, Emissions, FirstMultiple, ByteCount, TotalSize;
    if PutsBytes(line) {
      ByteTotal(line, c);
    } else {
      GapToFirst(Location(c), 4);
      WordSizes(line, c, |line.items|);
      assert Emissions(line, c)[..|Emissions(line, c)|] == Emissions(line, c);
    }
  }

  // ----- order -----

  /** Of two labels in front of a statement the inner one is defined first. */
  lemma {:induction false} InnerFirst(x: string, y: string, line: Line, rest: seq<Line>, c: Cursor)
    requires !line.Label?
    ensures var ds := Definitions([Label(x), Label(y), line] + rest, c, []);
      |ds| >= 2 && ds[0].name == y && ds[1].name == x && ds[0].location == ds[1].location
  {
    hide Next, Start;
    var lines := [Label(x), Label(y), line] + rest;
    var inner, statement := [Label(y), line] + rest, [line] + rest;
    assert lines[1..] == inner && inner[1..] == statement && [x] + [] == [x] && [y] + [x] == [y, x];
    assert Definitions(lines, c, []) == Definitions(inner, c, [x]);
    assert Definitions(inner, c, [x]) == Definitions(statement, c, [y, x]);
    assert Bind([y, x], Start(line, c))[0].name == y && Bind([y, x], Start(line, c))[1].name == x;
  }
}

/** The output of the assembler: two growing byte streams, each with a write position, and one
    cursor in the address space. */
module Builder {
  import opened Words
  import opened Machine
  import opened Assembly

  /** Writing into a stream at its write position; past the end the stream grows. */
  function Overwrite(s: seq<Byte>, at: nat, chunk: seq<Byte>): (r: seq<Byte>)
    requires at <= |s|
    ensures |r| == if at + |chunk| <= |s| then |s| else at + |chunk|
  {
    s[..at] + chunk + if at + |chunk| <= |s| then s[at + |chunk|..] else []
  }

  function ZeroBytes(n: nat): seq<Byte> {
    seq(n, _ => 0)
  }

  lemma OverwriteInside(s: seq<Byte>, at: nat, chunk: seq<Byte>)
    requires at + |chunk| <= |s|
    ensures Overwrite(s, at, chunk) == Splice(s, at, chunk)
  {
  }

  /** One more zero after n of them. */
  lemma OverwriteZero(s: seq<Byte>, at: nat, n: nat)
    requires at <= |s|
    ensures Overwrite(Overwrite(s, at, ZeroBytes(n)), at + n, [0]) == Overwrite(s, at, ZeroBytes(n + 1))
  {
    assert ZeroBytes(n + 1) == ZeroBytes(n) + [0];
  }

  lemma OverwriteNothing(s: seq<Byte>, at: nat)
    requires at <= |s|
    ensures Overwrite(s, at, ZeroBytes(0)) == s
  {
    assert s[..at] + ZeroBytes(0) + s[at..] == s;
  }

  lemma OverwriteAtEnd(s: seq<Byte>, chunk: seq<Byte>)
    ensures Overwrite(s, |s|, chunk) == s + chunk
  {
  }

  /** `setLocation` given this goes to the end of the data segment. */
  const END: Word := 0xFFFF_FFFF

  const HEADER_SIZE := 16

  // ----- the builder as a value -----

  datatype Streams = Streams(text: seq<Byte>, textPut: nat, data: seq<Byte>, dataPut: nat, cursor: Word)

  const EMPTY := Streams([], 0, [], 0, 0)

  predicate Valid(b: Streams) {
    && b.textPut <= |b.text| < DATA_SEGMENT_OFFSET
    && b.dataPut <= |b.data| && DATA_SEGMENT_OFFSET + |b.data| < END
  }

  function Content(b: Streams): Segments {
    Segments(b.text, b.data)
  }

  function BytesWritten(b: Streams, chunk: seq<Byte>): Streams
    requires Valid(b)
  {
    b.(data := Overwrite(b.data, b.dataPut, chunk), dataPut := b.dataPut + |chunk|, cursor := Wrap(b.cursor + |chunk|))
  }

  function WordWritten(b: Streams, w: Word): Streams
    requires Valid(b)
  {
    if b.cursor < DATA_SEGMENT_OFFSET then
      b.(text := Overwrite(b.text, b.textPut, BytesOf(w)), textPut := b.textPut + 4, cursor := Wrap(b.cursor + 4))
    else BytesWritten(b, BytesOf(w))
  }

  /** Inside a segment only the write position moves. Past the end of the data segment the gap is
      filled with zeros; past the end of the text segment zeros are written too, but to the data
      stream. */
  function Relocated(b: Streams, location: Word): Streams
    requires Valid(b)
  {
    if location == END then b.(dataPut := |b.data|, cursor := DATA_SEGMENT_OFFSET + |b.data|)
    else if location < DATA_SEGMENT_OFFSET then
      if location <= |b.text| then b.(textPut := location, cursor := location)
      else
        var n := location - |b.text|;
        b.(textPut := |b.text|, data := Overwrite(b.data, b.dataPut, ZeroBytes(n)), dataPut := b.dataPut + n,
           cursor := location)
    else
      var i := location - DATA_SEGMENT_OFFSET;
      if i <= |b.data| then b.(dataPut := i, cursor := location)
      else b.(data := b.data + ZeroBytes(i - |b.data|), dataPut := i, cursor := location)
  }

  function Padded(b: Streams, size: Word): Streams
    requires Valid(b)
  {
    Relocated(b, Wrap(b.cursor + size))
  }

  function Aligned(b: Streams, alignment: Word): Streams
    requires Valid(b) && alignment > 0
  {
    var r := b.cursor % alignment;
    if r != 0 then Padded(b, alignment - r) else b
  }

  function Switched(b: Streams, segment: Segment): Streams
    requires Valid(b)
  {
    match segment
    case TextSegment => b.(textPut := |b.text|, cursor := |b.text|)
    case DataSegment => b.(dataPut := |b.data|, cursor := DATA_SEGMENT_OFFSET + |b.data|)
  }

  /** The file: a header of four words, then text, then data. */
  function FileOf(g: Segments): seq<Byte> {
    BytesOf(HEADER_SIZE) + BytesOf(Wrap(|g.text|)) + BytesOf(Wrap(HEADER_SIZE + |g.text|)) + BytesOf(Wrap(|g.data|))
    + g.text + g.data
  }

  // ----- appending -----

  predicate Fits(c: Cursor) {
    c.text < DATA_SEGMENT_OFFSET && DATA_SEGMENT_OFFSET + c.data < END
  }

  /** Ready to append: both write positions are at the end and the cursor is behind the last byte of
      the current segment. */
  predicate AtEnd(b: Streams, c: Cursor) {
    && b.textPut == |b.text| == c.text
    && b.dataPut == |b.data| == c.data
    && b.cursor == Location(c) && Fits(c)
  }

  function Append(g: Segments, segment: Segment, chunk: seq<Byte>): Segments {
    match segment
    case TextSegment => g.(text := g.text + chunk)
    case DataSegment => g.(data := g.data + chunk)
  }

  lemma AppendWord(b: Streams, c: Cursor, w: Word)
    requires AtEnd(b, c) && Fits(Grow(c, 4))
    ensures AtEnd(WordWritten(b, w), Grow(c, 4))
    ensures Content(WordWritten(b, w)) == Append(Content(b), c.segment, BytesOf(w))
  {
  }

  lemma AppendBytes(b: Streams, c: Cursor, chunk: seq<Byte>)
    requires AtEnd(b, c) && c.segment.DataSegment? && Fits(Grow(c, |chunk|))
    ensures AtEnd(BytesWritten(b, chunk), Grow(c, |chunk|))
    ensures Content(BytesWritten(b, chunk)) == Append(Content(b), DataSegment, chunk)
  {
  }

  /** Padding appends that many zeros exactly when the location does not run past the address space;
      otherwise the cursor wraps around and bytes already written come under it. */
  lemma PadGrows(b: Streams, c: Cursor, size: Word)
    requires AtEnd(b, c) && c.segment.DataSegment?
    ensures AtEnd(Padded(b, size), Grow(c, size)) <==> Fits(Grow(c, size))
    ensures Fits(Grow(c, size)) ==> Content(Padded(b, size)) == Append(Content(b), DataSegment, ZeroBytes(size))
  {
    if size == 0 {
      assert b.data + ZeroBytes(0) == b.data;
    }
  }

  /** Alignment moves to the least multiple not below the cursor and fills just the gap with zeros. */
  lemma AlignGrows(b: Streams, c: Cursor, alignment: Word)
    requires AtEnd(b, c) && c.segment.DataSegment? && alignment > 0
    requires Fits(Grow(c, Gap(Location(c), alignment)))
    ensures var gap := Gap(Location(c), alignment);
      && AtEnd(Aligned(b, alignment), Grow(c, gap))
      && Content(Aligned(b, alignment)) == Append(Content(b), DataSegment, ZeroBytes(gap))
      && Aligned(b, alignment).cursor % alignment == 0
      && forall l: nat | b.cursor <= l < Aligned(b, alignment).cursor :: l % alignment != 0
  {
    var gap := Gap(Location(c), alignment);
    if gap != 0 {
      PadGrows(b, c, gap);
      forall l: nat | b.cursor <= l < b.cursor + gap ensures l % alignment != 0 {
        var q := b.cursor / alignment;
        assert l == q * alignment + (b.cursor % alignment + (l - b.cursor));
        DivisionIsUnique(l, alignment, q, b.cursor % alignment + (l - b.cursor));
      }
    } else {
      assert b.data + ZeroBytes(0) == b.data;
    }
  }

  lemma SwitchKeepsEnd(b: Streams, c: Cursor, segment: Segment)
    requires AtEnd(b, c)
    ensures AtEnd(Switched(b, segment), c.(segment := segment)) && Content(Switched(b, segment)) == Content(b)
  {
  }

  // ----- patching -----

  /** Overwriting `n` bytes in place at a location. */
  function Patched(g: Segments, location: nat, chunk: seq<Byte>): Segments
    requires InPlace(g, location, |chunk|)
  {
    if location < DATA_SEGMENT_OFFSET then g.(text := Splice(g.text, location, chunk))
    else g.(data := Splice(g.data, location - DATA_SEGMENT_OFFSET, chunk))
  }

  predicate InPlace(g: Segments, location: nat, n: nat) {
    if location < DATA_SEGMENT_OFFSET then location + n <= |g.text|
    else location - DATA_SEGMENT_OFFSET + n <= |g.data|
  }

  /** Going back to a written location puts cursor and write position there. */
  lemma Return(b: Streams, location: Word, n: nat)
    requires Valid(b) && InPlace(Content(b), location, n) && location < END
    ensures var p := Relocated(b, location);
      Valid(p) && Content(p) == Content(b) && Writing(p, location)
  {
  }

  predicate Writing(b: Streams, location: Word) {
    b.cursor == location
    && if location < DATA_SEGMENT_OFFSET then b.textPut == location else b.dataPut == location - DATA_SEGMENT_OFFSET
  }

  /** Writing over bytes already there replaces them and nothing else: no length changes and the
      padding loops are not reached. */
  lemma PatchWord(b: Streams, location: Word, w: Word)
    requires Valid(b) && InPlace(Content(b), location, 4) && Writing(b, location)
    ensures var p := WordWritten(b, w);
      && Valid(p) && Content(p) == Patched(Content(b), location, BytesOf(w)) && Writing(p, location + 4)
  {
    hide BytesOf, Overwrite;
    if location < DATA_SEGMENT_OFFSET {
      OverwriteInside(b.text, location, BytesOf(w));
    } else {
      OverwriteInside(b.data, location - DATA_SEGMENT_OFFSET, BytesOf(w));
    }
  }

  lemma PatchByte(b: Streams, location: Word, v: Byte)
    requires Valid(b) && InPlace(Content(b), location, 1) && location >= DATA_SEGMENT_OFFSET && Writing(b, location)
    ensures var p := BytesWritten(b, [v]);
      Valid(p) && Content(p) == Patched(Content(b), location, [v])
  {
    OverwriteInside(b.data, location - DATA_SEGMENT_OFFSET, [v]);
  }

  lemma SmallWord(n: nat)
    requires n < 0x1_0000_0000
    ensures Wrap(n) == n
  {
  }

  /** Lengths that fit the address space are written as they are. */
  lemma {:induction false} FileParts(g: Segments, t: Word, d: Word)
    requires |g.text| == t < DATA_SEGMENT_OFFSET && |g.data| == d
    ensures FileOf(g) == BytesOf(HEADER_SIZE) + BytesOf(t) + BytesOf(HEADER_SIZE + t) + BytesOf(d) + g.text + g.data
  {
    hide BytesOf, Wrap;
    SmallWord(t);
    SmallWord(HEADER_SIZE + t);
    SmallWord(d);
  }

  // ----- the class -----

  class BinaryBuilder {
    var cursor: Word
    var textSegment: seq<Byte>
    var textPut: nat
    var dataSegment: seq<Byte>
    var dataPut: nat

    function View(): Streams
      reads this
    {
      Streams(textSegment, textPut, dataSegment, dataPut, cursor)
    }

    constructor ()
      ensures View() == EMPTY
    {
      cursor := 0;
      textSegment, textPut := [], 0;
      dataSegment, dataPut := [], 0;
    }

    method Open()
      modifies this
      ensures View() == EMPTY
    {
      cursor := 0;
      textSegment, textPut := [], 0;
      dataSegment, dataPut := [], 0;
    }

    method GetLocation() returns (location: Word)
      ensures location == cursor
    {
      location := cursor;
    }

    method WriteWord(word: Word)
      requires Valid(View())
      modifies this
      ensures View() == WordWritten(old(View()), word)
    {
      if cursor < DATA_SEGMENT_OFFSET {
        textSegment := Overwrite(textSegment, textPut, BytesOf(word));
        textPut := textPut + 4;
      } else {
        dataSegment := Overwrite(dataSegment, dataPut, BytesOf(word));
        dataPut := dataPut + 4;
      }
      cursor := Wrap(cursor + 4);
    }

    /** Bytes always go to the data stream. */
    method WriteByte(byte: Byte)
      requires dataPut <= |dataSegment|
      modifies this
      ensures dataSegment == Overwrite(old(dataSegment), old(dataPut), [byte]) && dataPut == old(dataPut) + 1
      ensures cursor == Wrap(old(cursor) + 1) && textSegment == old(textSegment) && textPut == old(textPut)
    {
      dataSegment := Overwrite(dataSegment, dataPut, [byte]);
      dataPut := dataPut + 1;
      cursor := Wrap(cursor + 1);
    }

    method WriteString(bytes: seq<Byte>)
      requires Valid(View())
      modifies this
      ensures View() == BytesWritten(old(View()), bytes)
    {
      dataSegment := Overwrite(dataSegment, dataPut, bytes);
      dataPut := dataPut + |bytes|;
      cursor := Wrap(cursor + |bytes|);
    }

    /** Zeros up to a location; they go where the data stream stands, whatever the cursor says. */
    method FillTo(location: Word)
      requires cursor <= location && dataPut <= |dataSegment|
      modifies this
      ensures textSegment == old(textSegment) && textPut == old(textPut)
      ensures cursor == location && dataPut == old(dataPut) + (location - old(cursor))
      ensures dataSegment == Overwrite(old(dataSegment), old(dataPut), ZeroBytes(location - old(cursor)))
    {
      hide Overwrite;
      OverwriteNothing(dataSegment, dataPut);
      while cursor < location
        invariant old(cursor) <= cursor <= location && textSegment == old(textSegment) && textPut == old(textPut)
        invariant dataPut == old(dataPut) + (cursor - old(cursor)) <= |dataSegment|
        invariant dataSegment == Overwrite(old(dataSegment), old(dataPut), ZeroBytes(cursor - old(cursor)))
      {
        OverwriteZero(old(dataSegment), old(dataPut), cursor - old(cursor));
        WriteByte(0);
      }
    }

    method SetLocation(location: Word)
      requires Valid(View())
      modifies this
      ensures View() == Relocated(old(View()), location)
    {
      hide Overwrite;
      if location == END {
        dataPut := |dataSegment|;
        cursor := DATA_SEGMENT_OFFSET + dataPut;
      } else {
        if location < DATA_SEGMENT_OFFSET {
          textPut := |textSegment|;
          if location > textPut {
            cursor := textPut;
            FillTo(location);
          } else {
            textPut := location;
          }
        } else {
          dataPut := |dataSegment|;
          if location - DATA_SEGMENT_OFFSET > dataPut {
            cursor := DATA_SEGMENT_OFFSET + dataPut;
            OverwriteAtEnd(dataSegment, ZeroBytes(location - cursor));
            FillTo(location);
          } else {
            dataPut := location - DATA_SEGMENT_OFFSET;
          }
        }
        cursor := location;
      }
    }

    method Pad(size: Word)
      requires Valid(View())
      modifies this
      ensures View() == Padded(old(View()), size)
    {
      var location := GetLocation();
      SetLocation(Wrap(location + size));
    }

    method Align(alignment: Word)
      requires Valid(View()) && alignment > 0
      modifies this
      ensures View() == Aligned(old(View()), alignment)
    {
      var location := GetLocation();
      var r := location % alignment;
      if r != 0 {
        Pad(alignment - r);
      }
    }

    method SetSegmentType(segment: Segment)
      requires Valid(View())
      modifies this
      ensures View() == Switched(old(View()), segment)
    {
      if segment.TextSegment? {
        textPut := |textSegment|;
        cursor := textPut;
      } else {
        dataPut := |dataSegment|;
        cursor := DATA_SEGMENT_OFFSET + dataPut;
      }
    }

    method Close() returns (file: seq<Byte>)
      requires Valid(View())
      ensures file == FileOf(Content(View()))
    {
      var textBegin: Word := HEADER_SIZE;
      var textLength: Word := |textSegment|;
      var dataBegin: Word := textBegin + textLength;
      var dataLength: Word := |dataSegment|;
      FileParts(Content(View()), textLength, dataLength);
      hide BytesOf, FileOf;
      file := BytesOf(textBegin) + BytesOf(textLength) + BytesOf(dataBegin) + BytesOf(dataLength)
        + textSegment + dataSegment;
    }
  }

  // ----- moving about -----

  /** Moving the cursor never touches the text, never shortens the data, and writes nothing but zeros; what
      stood in front of the data stream's position stays. */
  lemma {:induction false} MovingKeeps(b: Streams, location: Word, i: nat)
    requires Valid(b)
    ensures var r := Relocated(b, location);
      && r.text == b.text && |r.data| >= |b.data|
      && (location != END ==> r.cursor == location)
      && (i < b.dataPut ==> r.data[i] == b.data[i])
      && (i < |r.data| && (i >= |b.data| || r.data[i] != b.data[i]) ==> r.data[i] == 0)
  {
  }

  /** A location inside a segment becomes the write position there, and no byte changes. */
  lemma MovingInside(b: Streams, location: Word)
    requires Valid(b) && location != END
    ensures var r := Relocated(b, location);
      && (location <= |b.text| && location < DATA_SEGMENT_OFFSET ==> r == b.(textPut := location, cursor := location))
      && (DATA_SEGMENT_OFFSET <= location <= DATA_SEGMENT_OFFSET + |b.data| ==>
            r == b.(dataPut := location - DATA_SEGMENT_OFFSET, cursor := location))
  {
  }
}

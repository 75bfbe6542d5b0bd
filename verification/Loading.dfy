/** From the file the assembler closes to the memory the virtual machine opens. */
module Loading {
  import opened Words
  import opened Isa
  import opened Machine
  import opened Assembly
  import opened Builder

  /** A vector resized: what it held, cut off or followed by zeros. */
  function Resized(before: seq<Byte>, size: nat): (r: seq<Byte>)
    ensures |r| == size
  {
    if size <= |before| then before[..size] else before + ZeroBytes(size - |before|)
  }

  /** Vector contents after a read over them: as much of the input as there is. */
  function ReadInto(before: seq<Byte>, size: nat, input: seq<Byte>): (r: seq<Byte>)
    ensures |r| == size
  {
    if size <= |input| then input[..size] else input + Resized(before, size)[|input|..]
  }

  /** The header's second and fourth words are the segment lengths; both segments follow it. What the
      vector held before shows through where the file is shorter than its header says. */
  function Reopened(before: seq<Byte>, file: seq<Byte>, stack: seq<Byte>, global: seq<Byte>): Memory
    requires |file| >= HEADER_SIZE
  {
    var textLength := WordOf(file[4..8]);
    var dataLength := WordOf(file[12..16]);
    Memory(ReadInto(before, Wrap(textLength + dataLength), file[HEADER_SIZE..]), textLength, stack, global)
  }

  /** Opening for the first time. */
  function Opened(file: seq<Byte>, stack: seq<Byte>, global: seq<Byte>): Memory
    requires |file| >= HEADER_SIZE
  {
    Reopened([], file, stack, global)
  }

  /** A file as long as its header says opens the same whatever was open before. */
  lemma ReopenedComplete(before: seq<Byte>, file: seq<Byte>, stack: seq<Byte>, global: seq<Byte>)
    requires |file| >= HEADER_SIZE
    requires HEADER_SIZE + Wrap(WordOf(file[4..8]) + WordOf(file[12..16])) <= |file|
    ensures Reopened(before, file, stack, global) == Opened(file, stack, global)
  {
    hide WordOf;
  }

  /** A closed file opens to text and data back to back. */
  lemma OpenedImage(g: Segments, stack: seq<Byte>, global: seq<Byte>)
    requires |g.text| < DATA_SEGMENT_OFFSET && DATA_SEGMENT_OFFSET + |g.data| < END
    ensures |FileOf(g)| >= HEADER_SIZE
    ensures Opened(FileOf(g), stack, global) == Memory(g.text + g.data, |g.text|, stack, global)
  {
    hide BytesOf, WordOf;
    var h0, h1 := BytesOf(HEADER_SIZE), BytesOf(Wrap(|g.text|));
    var h2, h3 := BytesOf(Wrap(HEADER_SIZE + |g.text|)), BytesOf(Wrap(|g.data|));
    HeaderFields(h0, h1, h2, h3, g.text, g.data);
    Lengths(|g.text|);
    Lengths(|g.data|);
  }

  /** Where the parts of a file are. */
  lemma HeaderFields(h0: seq<Byte>, h1: seq<Byte>, h2: seq<Byte>, h3: seq<Byte>, text: seq<Byte>, data: seq<Byte>)
    requires |h0| == |h1| == |h2| == |h3| == 4
    ensures var file := h0 + h1 + h2 + h3 + text + data;
      file[4..8] == h1 && file[12..16] == h3 && file[HEADER_SIZE..] == text + data
  {
  }

  lemma Lengths(n: nat)
    requires n < 0x1_0000_0000
    ensures Wrap(n) == n && WordOf(BytesOf(Wrap(n))) == n
  {
  }

  /** The builder and the loader agree on where every location lives: what the segments hold at an
      address below the stack is what the machine reads there. */
  lemma LayoutAgrees(g: Segments, stack: seq<Byte>, global: seq<Byte>, location: Word)
    requires |g.text| < DATA_SEGMENT_OFFSET && DATA_SEGMENT_OFFSET + |g.data| < END
    requires location < STACK_OFFSET
    ensures |FileOf(g)| >= HEADER_SIZE
    ensures var m := Opened(FileOf(g), stack, global);
      && (ByteIn(g, location).Some? ==> ReadByte(m, location) == ByteIn(g, location))
      && (WordIn(g, location).Some? ==> ReadWord(m, location) == WordIn(g, location))
  {
    hide FileOf, Opened, WordOf;
    OpenedImage(g, stack, global);
    var image := g.text + g.data;
    if WordIn(g, location).Some? {
      if location < DATA_SEGMENT_OFFSET {
        assert image[location..location + 4] == g.text[location..location + 4];
      } else {
        var i := location - DATA_SEGMENT_OFFSET;
        assert image[i + |g.text|..i + |g.text| + 4] == g.data[i..i + 4];
      }
    }
  }
}

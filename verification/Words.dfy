/** Fixed-width arithmetic of the virtual machine: 32-bit words, 16-bit halves, bytes,
    the bitwise operators and the little-endian layout of a word in memory. */
module Words {

  type Byte = x: int | 0 <= x < 0x100
  type Half = x: int | 0 <= x < 0x1_0000
  type Word = x: int | 0 <= x < 0x1_0000_0000

  datatype Option<+T> = None | Some(value: T)

  /** Unsigned 32-bit wrap-around. */
  function Wrap(x: int): Word {
    x % 0x1_0000_0000
  }

  /** A word read as a two's complement number. */
  function Signed(w: Word): int {
    if w < 0x8000_0000 then w else w - 0x1_0000_0000
  }

  /** The value kept by a 16-bit unsigned bit-field. */
  function LowHalf(x: int): Half {
    x % 0x1_0000
  }

  /** The value a 16-bit signed bit-field reads back. */
  function SignExtend(h: Half): int {
    if h < 0x8000 then h else h - 0x1_0000
  }

  function Pow2(n: nat): (p: nat)
    ensures p > 0
  {
    if n == 0 then 1 else 2 * Pow2(n - 1)
  }

  lemma PowersOfTwo()
    ensures Pow2(16) == 0x1_0000 && Pow2(32) == 0x1_0000_0000
  {
    assert Pow2(4) == 0x10;
    assert Pow2(8) == 0x100;
    assert Pow2(12) == 0x1000;
    assert Pow2(16) == 0x1_0000;
    assert Pow2(20) == 0x10_0000;
    assert Pow2(24) == 0x100_0000;
    assert Pow2(28) == 0x1000_0000;
    assert Pow2(32) == 0x1_0000_0000;
  }

  // ----- bitwise operators -----

  datatype BitOp = And | Or | Xor {
    function Bit(a: int, b: int): int {
      match this
      case And => if a == 1 && b == 1 then 1 else 0
      case Or => if a == 1 || b == 1 then 1 else 0
      case Xor => if a != b then 1 else 0
    }
  }

  function Bits(op: BitOp, a: nat, b: nat): nat
    decreases a + b
  {
    if a == 0 && b == 0 then 0
    else 2 * Bits(op, a / 2, b / 2) + op.Bit(a % 2, b % 2)
  }

  lemma {:induction false} BitsBounded(op: BitOp, a: nat, b: nat, n: nat)
    requires a < Pow2(n) && b < Pow2(n)
    ensures Bits(op, a, b) < Pow2(n)
    decreases n
  {
    if a != 0 || b != 0 {
      BitsBounded(op, a / 2, b / 2, n - 1);
    }
  }

  function Bitwise(op: BitOp, a: Word, b: Word): Word {
    PowersOfTwo();
    BitsBounded(op, a, b, 32);
    Bits(op, a, b)
  }

  function BitNor(a: Word, b: Word): Word {
    0xFFFF_FFFF - Bitwise(Or, a, b)
  }

  lemma {:induction false} OrZero(a: nat)
    ensures Bits(Or, a, 0) == a && Bits(Or, 0, a) == a
  {
    if a != 0 {
      OrZero(a / 2);
    }
  }

  /** Or-ing a number below 2^n into a multiple of 2^n places it in the free bits. */
  lemma {:induction false} OrIntoGap(h: nat, l: nat, n: nat)
    requires l < Pow2(n)
    ensures Bits(Or, h * Pow2(n), l) == h * Pow2(n) + l
  {
    if n == 0 {
      OrZero(h);
    } else {
      var p := Pow2(n - 1);
      assert h * Pow2(n) == 2 * (h * p);
      OrIntoGap(h, l / 2, n - 1);
      assert (2 * (h * p)) / 2 == h * p && (2 * (h * p)) % 2 == 0;
    }
  }

  /** `lui` then `ori` puts any two halves together. */
  lemma OrHalves(hi: Half, lo: Half)
    ensures Bitwise(Or, hi * 0x1_0000, lo) == hi * 0x1_0000 + lo
  {
    PowersOfTwo();
    OrIntoGap(hi, lo, 16);
  }

  // ----- memory layout of a word -----

  /** The word stored little-endian in four bytes. */
  function WordOf(b: seq<Byte>): Word
    requires |b| == 4
  {
    var b0: int, b1: int, b2: int, b3: int := b[0], b[1], b[2], b[3];
    b0 + 0x100 * b1 + 0x1_0000 * b2 + 0x100_0000 * b3
  }

  function BytesOf(w: Word): (b: seq<Byte>)
    ensures |b| == 4 && WordOf(b) == w
  {
    var w1 := w / 0x100;
    var w2 := w1 / 0x100;
    var w3 := w2 / 0x100;
    [w % 0x100, w1 % 0x100, w2 % 0x100, w3]
  }

  /** Overwriting a slice of a buffer that already holds it. */
  function Splice<T>(s: seq<T>, i: nat, chunk: seq<T>): (r: seq<T>)
    requires i + |chunk| <= |s|
    ensures |r| == |s|
    ensures r[i..i + |chunk|] == chunk
    ensures forall j :: 0 <= j < i || i + |chunk| <= j < |s| ==> r[j] == s[j]
  {
    s[..i] + chunk + s[i + |chunk|..]
  }
}

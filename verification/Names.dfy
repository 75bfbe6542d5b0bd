/** Decimal suffixes of generated names, and what the assembler reads as a name. */
module Names {

  function Digit(d: int): char
    requires 0 <= d < 10
  {
    '0' + d as char
  }

  function Decimal(n: nat): (s: string)
    ensures s != []
  {
    if n < 10 then [Digit(n)] else Decimal(n / 10) + [Digit(n % 10)]
  }

  lemma {:induction false} DecimalInjective(m: nat, n: nat)
    requires Decimal(m) == Decimal(n)
    ensures m == n
    decreases m
  {
    var s, t := Decimal(m), Decimal(n);
    assert s[|s| - 1] == Digit(m % 10) && t[|t| - 1] == Digit(n % 10);
    if m >= 10 && n >= 10 {
      assert s[..|s| - 1] == Decimal(m / 10) && t[..|t| - 1] == Decimal(n / 10);
      DecimalInjective(m / 10, n / 10);
    }
  }

  /** The name of the n-th compiler label. */
  function UidLabel(n: nat): string {
    "_" + Decimal(n)
  }

  lemma UidLabelInjective(m: nat, n: nat)
    requires UidLabel(m) == UidLabel(n)
    ensures m == n
  {
    assert UidLabel(m)[1..] == Decimal(m) && UidLabel(n)[1..] == Decimal(n);
    DecimalInjective(m, n);
  }

  // ----- what is read as a name -----

  predicate IsLetter(c: char) {
    'a' <= c <= 'z' || 'A' <= c <= 'Z' || c == '_'
  }

  predicate IsIdentifier(s: string) {
    s != [] && IsLetter(s[0]) && forall i | 0 < i < |s| :: IsLetter(s[i]) || '0' <= s[i] <= '9'
  }

  function Lower(c: char): char {
    if 'A' <= c <= 'Z' then c - 'A' + 'a' else c
  }

  function LowerCase(s: string): string {
    seq(|s|, i requires 0 <= i < |s| => Lower(s[i]))
  }

  /** The words for instructions and pseudo-instructions, which are read in either case. */
  predicate IsMnemonic(s: string) {
    LowerCase(s) in {
      "add", "addi", "addiu", "addu", "and", "andi", "beq", "bgez", "bgezal", "bgtz", "blez", "bltz", "bltzal",
      "bne", "div", "divu", "j", "jal", "jr", "lb", "lui", "lw", "mfhi", "mflo", "mult", "multu", "or", "ori", "sb",
      "sll", "sllv", "slt", "slti", "sltiu", "sltu", "sne", "seq", "sra", "srl", "srlv", "sub", "subu", "sw", "sys",
      "xor", "xori", "jalr", "nor", "copy", "clr", "b", "bal", "bgt", "blt", "bge", "ble", "bgtu", "beqz", "rem",
      "li", "la", "nop", "not", "pushw", "popw", "pushb", "popb", "ret", "call", "enter"
    }
  }

  /** An identifier that is not one of the assembler's own words. */
  predicate IsName(s: string) {
    IsIdentifier(s) && !IsMnemonic(s)
  }

  lemma NoUnderscore(s: string)
    requires IsMnemonic(s)
    ensures s != [] && s[0] != '_'
  {
    var m := LowerCase(s);
    assert m != [] && m[0] != '_';
  }

  lemma {:induction false} DecimalDigits(n: nat, i: nat)
    requires i < |Decimal(n)|
    ensures '0' <= Decimal(n)[i] <= '9'
  {
    if n >= 10 && i < |Decimal(n / 10)| {
      DecimalDigits(n / 10, i);
    }
  }

  /** Generated labels are read as names. */
  lemma UidLabelIsName(n: nat)
    ensures IsName(UidLabel(n))
  {
    hide IsMnemonic, Decimal;
    var x := UidLabel(n);
    forall i | 0 < i < |x| ensures '0' <= x[i] <= '9' {
      DecimalDigits(n, i - 1);
    }
    if IsMnemonic(x) {
      NoUnderscore(x);
    }
  }

  /** The number a string of digits stands for. */
  function Value(s: string): int {
    if s == [] then 0 else 10 * Value(s[..|s| - 1]) + (s[|s| - 1] as int - '0' as int)
  }

  lemma {:induction false} DecimalValue(n: nat)
    ensures Value(Decimal(n)) == n && (n > 0 ==> Decimal(n)[0] != '0')
  {
    var s := Decimal(n);
    if n >= 10 {
      DecimalValue(n / 10);
      assert s[..|s| - 1] == Decimal(n / 10);
    } else {
      assert s[..0] == [];
    }
  }
}

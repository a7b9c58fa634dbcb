/** The 32-bit rolling checksum of a canonical graph, and how it is printed. */
module Checksum {

  /** charCodeAt: one UTF-16 code unit. */
  type CodeUnit = n: nat | n < 0x1_0000 witness 0

  /** x | 0: the signed 32-bit value congruent to x. */
  function ToInt32(x: int): (r: int)
    ensures -0x8000_0000 <= r < 0x8000_0000
    ensures (r - x) % 0x1_0000_0000 == 0
  {
    x - 0x1_0000_0000 * ((x + 0x8000_0000) / 0x1_0000_0000)
  }

  /** hash << 5 on a 32-bit value. */
  function ShiftLeft5(h: int): int {
    ToInt32(32 * h)
  }

  lemma ToInt32Congruent(x: int, k: int)
    ensures ToInt32(x + 0x1_0000_0000 * k) == ToInt32(x)
  {
  }

  lemma ToInt32Laps(x: int) returns (k: int)
    ensures ToInt32(x) == x + 0x1_0000_0000 * k
  {
    k := -((x + 0x8000_0000) / 0x1_0000_0000);
  }

  // ── The polynomial ───────────────────────────────────────────────────────

  function Pow31(e: nat): nat {
    if e == 0 then 1 else 31 * Pow31(e - 1)
  }

  /** The sum of s[i] * 31^(|s| - 1 - i). */
  function Polynomial(s: seq<CodeUnit>): nat {
    if s == [] then 0 else s[0] * Pow31(|s| - 1) + Polynomial(s[1..])
  }

  lemma {:induction false} PolynomialAppend(s: seq<CodeUnit>, c: CodeUnit)
    ensures Polynomial(s + [c]) == 31 * Polynomial(s) + c
  {
    if s == [] {
      assert ([] + [c])[1..] == [];
    } else {
      PolynomialAppend(s[1..], c);
      assert (s + [c])[1..] == s[1..] + [c];
      var x, p := s[0] as int, Pow31(|s| - 1);
      assert x * (31 * p) == 31 * (x * p);
    }
  }

  /** One turn of the loop; the sum before the reduction is a number a double holds exactly. */
  lemma Turn(h: int, p: int, c: CodeUnit)
    requires h == ToInt32(p)
    ensures var sum := ShiftLeft5(h) - h + c;
            && -0x20_0000_0000_0000 < sum < 0x20_0000_0000_0000
            && ToInt32(sum) == ToInt32(31 * p + c)
  {
    var k := ToInt32Laps(p);
    var l := ToInt32Laps(32 * h);
    hide ToInt32;
    ToInt32Congruent(31 * p + c, 31 * k + l);
  }

  method Roll(content: seq<CodeUnit>) returns (hash: int)
    ensures hash == ToInt32(Polynomial(content))
  {
    hash := 0;
    assert content[..0] == [];
    for i := 0 to |content|
      invariant hash == ToInt32(Polynomial(content[..i]))
    {
      assert content[..i + 1] == content[..i] + [content[i]];
      PolynomialAppend(content[..i], content[i]);
      Turn(hash, Polynomial(content[..i]), content[i]);
      hide Polynomial;
      hash := ShiftLeft5(hash) - hash + content[i];
      hash := ToInt32(hash);
    }
    assert content[..|content|] == content;
  }

  // ── Printing ─────────────────────────────────────────────────────────────

  const DIGITS := "0123456789abcdef"

  /** n.toString(16) */
  function Hex(n: nat): (s: string)
    ensures s != ""
  {
    if n < 16 then [DIGITS[n]] else Hex(n / 16) + [DIGITS[n % 16]]
  }

  function Zeros(n: nat): (s: string)
    ensures |s| == n
  {
    if n == 0 then "" else Zeros(n - 1) + "0"
  }

  function PadStart(s: string, width: nat): string {
    if |s| >= width then s else Zeros(width - |s|) + s
  }

  function Abs(x: int): nat {
    if x < 0 then -x else x
  }

  function Printed(hash: int, width: nat): string {
    PadStart(Hex(Abs(hash)), width)
  }

  predicate IsHex(c: char) {
    '0' <= c <= '9' || 'a' <= c <= 'f'
  }

  function DigitValue(c: char): nat {
    if '0' <= c <= '9' then c as nat - '0' as nat else if 'a' <= c <= 'f' then 10 + (c as nat - 'a' as nat) else 0
  }

  /** parseInt(s, 16) */
  function Value(s: string): nat {
    if s == "" then 0 else 16 * Value(s[..|s| - 1]) + DigitValue(s[|s| - 1])
  }

  lemma DigitReads(d: nat)
    requires d < 16
    ensures IsHex(DIGITS[d]) && DigitValue(DIGITS[d]) == d
  {
    assert d == 0 || d == 1 || d == 2 || d == 3 || d == 4 || d == 5 || d == 6 || d == 7
        || d == 8 || d == 9 || d == 10 || d == 11 || d == 12 || d == 13 || d == 14 || d == 15;
  }

  function Pow16(e: nat): nat {
    if e == 0 then 1 else 16 * Pow16(e - 1)
  }

  lemma {:induction false} HexReads(n: nat, width: nat)
    requires width >= 1 && n < Pow16(width)
    ensures |Hex(n)| <= width && Value(Hex(n)) == n
    ensures forall i :: 0 <= i < |Hex(n)| ==> IsHex(Hex(n)[i])
    decreases width
  {
    if n < 16 {
      DigitReads(n);
      assert [DIGITS[n]][..0] == "";
    } else {
      HexReads(n / 16, width - 1);
      DigitReads(n % 16);
      var s := Hex(n);
      assert s[..|s| - 1] == Hex(n / 16);
    }
  }

  lemma {:induction false} ZerosRead(n: nat, s: string)
    ensures Value(Zeros(n) + s) == Value(s)
    ensures forall i :: 0 <= i < n ==> Zeros(n)[i] == '0'
    decreases n + |s|
  {
    if s != "" {
      ZerosRead(n, s[..|s| - 1]);
      assert (Zeros(n) + s)[..n + |s| - 1] == Zeros(n) + s[..|s| - 1];
    } else if n > 0 {
      ZerosRead(n - 1, "");
      assert Zeros(n - 1) + "" == Zeros(n - 1);
      assert Zeros(n) + "" == Zeros(n);
      assert Zeros(n)[..n - 1] == Zeros(n - 1);
    }
  }

  lemma Pow16Of8()
    ensures Pow16(8) == 0x1_0000_0000
  {
    assert Pow16(4) == 0x1_0000;
  }

  /** The text is exactly as wide as asked, all hex digits, and reads back as the magnitude. */
  lemma PrintedReads(hash: int, width: nat)
    requires -0x8000_0000 <= hash < 0x8000_0000 && width >= 8
    ensures |Printed(hash, width)| == width
    ensures forall i :: 0 <= i < width ==> IsHex(Printed(hash, width)[i])
    ensures Value(Printed(hash, width)) == Abs(hash)
  {
    Pow16Of8();
    hide Pow16;
    var n := Abs(hash);
    HexReads(n, 8);
    hide Hex;
    ZerosRead(width - |Hex(n)|, Hex(n));
  }

  method ComputeChecksum(content: seq<CodeUnit>) returns (text: string)
    ensures text == Printed(ToInt32(Polynomial(content)), 8)
    ensures |text| == 8 && (forall i :: 0 <= i < 8 ==> IsHex(text[i]))
    ensures Value(text) == Abs(ToInt32(Polynomial(content)))
  {
    hide Printed;
    hide Value;
    hide Polynomial;
    var hash := Roll(content);
    PrintedReads(hash, 8);
    text := Printed(hash, 8);
  }

  // ── Equal checksums of different contents ────────────────────────────────

  /** Two contents print the same checksum if and only if their 32-bit values agree up to sign. */
  lemma SameChecksumIff(a: seq<CodeUnit>, b: seq<CodeUnit>)
    ensures Printed(ToInt32(Polynomial(a)), 8) == Printed(ToInt32(Polynomial(b)), 8)
            <==> Abs(ToInt32(Polynomial(a))) == Abs(ToInt32(Polynomial(b)))
  {
    PrintedReads(ToInt32(Polynomial(a)), 8);
    PrintedReads(ToInt32(Polynomial(b)), 8);
    hide Value;
    hide Polynomial;
    hide ToInt32;
  }

  /** Interchangeable in any content. */
  ghost predicate Alike(a: seq<CodeUnit>, b: seq<CodeUnit>) {
    |a| == |b| && Polynomial(a) == Polynomial(b)
  }

  lemma {:induction false} PolynomialConcat(a: seq<CodeUnit>, b: seq<CodeUnit>)
    ensures Polynomial(a + b) == Polynomial(a) * Pow31(|b|) + Polynomial(b)
    decreases |b|
  {
    if b == [] {
      assert a + b == a;
    } else {
      var n := |b| - 1;
      PolynomialConcat(a, b[..n]);
      PolynomialAppend(a + b[..n], b[n]);
      PolynomialAppend(b[..n], b[n]);
      assert a + b == (a + b[..n]) + [b[n]] && b == b[..n] + [b[n]];
      assert Pow31(|b|) == 31 * Pow31(n);
      hide Polynomial;
      hide Pow31;
      HornerStep(Polynomial(a), Pow31(n), Polynomial(b[..n]), b[n]);
    }
  }

  lemma HornerStep(p: nat, e: nat, q: nat, c: nat)
    ensures 31 * (p * e + q) + c == p * (31 * e) + (31 * q + c)
  {
  }

  lemma AlikeConcat(a: seq<CodeUnit>, b: seq<CodeUnit>, c: seq<CodeUnit>, d: seq<CodeUnit>)
    requires Alike(a, b) && Alike(c, d)
    ensures Alike(a + c, b + d)
  {
    PolynomialConcat(a, c);
    PolynomialConcat(b, d);
    hide Polynomial;
  }

  /** "Aa" and "BB" are interchangeable anywhere. */
  lemma ChecksumCollides(before: seq<CodeUnit>, after: seq<CodeUnit>)
    ensures before + [65, 97] + after != before + [66, 66] + after
    ensures Alike(before + [65, 97] + after, before + [66, 66] + after)
  {
    var x: seq<CodeUnit>, y: seq<CodeUnit> := [65, 97], [66, 66];
    assert (before + x + after)[|before|] != (before + y + after)[|before|];
    PolynomialAppend([65], 97);
    PolynomialAppend([66], 66);
    assert [65] + [97] == x && [66] + [66] == y;
    assert Polynomial([65]) == 65 && Polynomial([66]) == 66;
    assert Alike(x, y);
    hide Alike;
    assert Alike(before, before) && Alike(after, after) by {
      AlikeSelf(before);
      AlikeSelf(after);
    }
    AlikeConcat(before, before, x, y);
    AlikeConcat(before + x, before + y, after, after);
  }

  lemma AlikeSelf(a: seq<CodeUnit>)
    ensures Alike(a, a)
  {
  }
}

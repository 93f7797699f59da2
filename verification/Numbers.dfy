/** Number printing of lib.c (and its copy in ece391support.c): digits are written lowest first into a
    buffer and reversed in place.
 */
module Numbers {
  import opened Division

  const TENS: string := "01234" + "56789"
  const FIRST: string := "ABCDEF" + "GHIJKLM"
  const SECOND: string := "NOPQRS" + "TUVWXYZ"
  const LOOKUP: string := TENS + (FIRST + SECOND)
  const WORD := 0x1_0000_0000

  /** The value of a digit character, or -1. */
  function DigitValue(c: char): int {
    if '0' <= c <= '9' then c as int - '0' as int
    else if 'A' <= c <= 'Z' then c as int - 'A' as int + 10
    else -1
  }

  lemma {:induction false} TensAt(d: nat)
    requires d < 10
    ensures TENS[d] as int == '0' as int + d
  {
    assert TENS[0] == '0' && TENS[1] == '1' && TENS[2] == '2' && TENS[3] == '3' && TENS[4] == '4';
    assert TENS[5] == '5' && TENS[6] == '6' && TENS[7] == '7' && TENS[8] == '8' && TENS[9] == '9';
  }

  lemma {:induction false} FirstAt(d: nat)
    requires d < 13
    ensures FIRST[d] as int == 'A' as int + d
  {
    assert FIRST[0] == 'A' && FIRST[1] == 'B' && FIRST[2] == 'C' && FIRST[3] == 'D' && FIRST[4] == 'E';
    assert FIRST[5] == 'F' && FIRST[6] == 'G' && FIRST[7] == 'H' && FIRST[8] == 'I' && FIRST[9] == 'J';
    assert FIRST[10] == 'K' && FIRST[11] == 'L' && FIRST[12] == 'M';
  }

  lemma {:induction false} SecondAt(d: nat)
    requires d < 13
    ensures SECOND[d] as int == 'N' as int + d
  {
    assert SECOND[0] == 'N' && SECOND[1] == 'O' && SECOND[2] == 'P' && SECOND[3] == 'Q' && SECOND[4] == 'R';
    assert SECOND[5] == 'S' && SECOND[6] == 'T' && SECOND[7] == 'U' && SECOND[8] == 'V' && SECOND[9] == 'W';
    assert SECOND[10] == 'X' && SECOND[11] == 'Y' && SECOND[12] == 'Z';
  }

  function DigitChar(d: nat): char
    requires d < 36
  {
    LOOKUP[d]
  }

  /** The table and DigitValue are inverse. */
  lemma {:induction false} LookupValue(d: nat)
    requires d < 36
    ensures DigitValue(DigitChar(d)) == d && DigitChar(d) != '\0'
  {
    if d < 10 {
      TensAt(d);
    } else if d < 23 {
      FirstAt(d - 10);
      assert LOOKUP[d] == FIRST[d - 10];
    } else {
      SecondAt(d - 23);
      assert LOOKUP[d] == SECOND[d - 23];
    }
  }

  // ----- reading a number back -----

  /** Every character is a digit of the radix. */
  ghost predicate IsNumeral(s: string, radix: nat) {
    forall i :: 0 <= i < |s| ==> 0 <= DigitValue(s[i]) < radix
  }

  /** The value of a numeral, highest digit first. */
  function Parse(s: string, radix: nat): int {
    if s == [] then 0 else Parse(s[..|s| - 1], radix) * radix + DigitValue(s[|s| - 1])
  }

  /** The value of a numeral, lowest digit first. */
  function ParseLow(s: string, radix: nat): int {
    if s == [] then 0 else DigitValue(s[0]) + radix * ParseLow(s[1..], radix)
  }

  function Reversed(s: string): (r: string)
    ensures |r| == |s| && forall i :: 0 <= i < |s| ==> r[i] == s[|s| - 1 - i]
  {
    if s == [] then [] else Reversed(s[1..]) + [s[0]]
  }

  lemma {:induction false} ParseReversed(s: string, radix: nat)
    ensures Parse(Reversed(s), radix) == ParseLow(s, radix)
  {
    if s != [] {
      var r := Reversed(s);
      ParseReversed(s[1..], radix);
      assert r[..|r| - 1] == Reversed(s[1..]) && r[|r| - 1] == s[0];
      assert ParseLow(s[1..], radix) * radix == radix * ParseLow(s[1..], radix);
    }
  }

  // ----- the digits that the loop produces -----

  function LowDigits(v: nat, radix: nat): (s: string)
    requires 2 <= radix <= 36
    decreases v
  {
    if v == 0 then [] else Smaller(v, radix); [DigitChar(v % radix)] + LowDigits(v / radix, radix)
  }

  lemma {:induction false} Smaller(v: nat, radix: nat)
    requires v > 0 && radix >= 2
    ensures v / radix <= v / 2 && v / radix < v && v == radix * (v / radix) + v % radix && 0 <= v % radix < radix
  {
    assert radix * (v / radix) >= 2 * (v / radix);
  }

  lemma {:induction false} LowDigitsParse(v: nat, radix: nat)
    requires 2 <= radix <= 36
    ensures ParseLow(LowDigits(v, radix), radix) == v && IsNumeral(LowDigits(v, radix), radix)
    ensures v > 0 ==> LowDigits(v, radix) != [] && LowDigits(v, radix)[|LowDigits(v, radix)| - 1] != '0'
    decreases v
  {
    if v > 0 {
      Smaller(v, radix);
      LookupValue(v % radix);
      LowDigitsParse(v / radix, radix);
      var rest := LowDigits(v / radix, radix);
      assert LowDigits(v, radix)[1..] == rest;
    }
  }

  lemma {:induction false} ZeroDigits(radix: nat)
    requires 2 <= radix <= 36
    ensures LowDigits(0, radix) == []
  {
  }

  lemma {:induction false} NextDigit(v: nat, radix: nat)
    requires 2 <= radix <= 36 && v > 0
    ensures 0 <= v % radix < radix && 0 <= v / radix < v
    ensures LowDigits(v, radix) == [DigitChar(v % radix)] + LowDigits(v / radix, radix)
  {
    Smaller(v, radix);
  }

  function Pow(base: nat, k: nat): nat {
    if k == 0 then 1 else base * Pow(base, k - 1)
  }

  lemma {:induction false} Regroup(a: nat, b: nat, c: nat)
    ensures a * (b * c) == (a * b) * c
  {
  }

  lemma {:induction false} PowAdd(base: nat, j: nat, k: nat)
    ensures Pow(base, j + k) == Pow(base, j) * Pow(base, k)
  {
    if j > 0 {
      PowAdd(base, j - 1, k);
      assert Pow(base, j + k) == base * Pow(base, j - 1 + k);
      Regroup(base, Pow(base, j - 1), Pow(base, k));
    }
  }

  lemma {:induction false} WordIsPower()
    ensures Pow(2, 32) == WORD && Pow(16, 8) == WORD
  {
    assert Pow(2, 2) == 4;
    PowAdd(2, 2, 2);
    PowAdd(2, 4, 4);
    PowAdd(2, 8, 8);
    PowAdd(2, 16, 16);
    assert Pow(16, 2) == 256;
    PowAdd(16, 2, 2);
    PowAdd(16, 4, 4);
  }

  lemma {:induction false} QuotientBound(v: nat, radix: nat, base: nat, p: nat)
    requires 2 <= base <= radix && 0 < v < base * p
    ensures v / radix < p
  {
    Smaller(v, radix);
    Scale(base, radix, v / radix);
    if p <= v / radix {
      Scale(p, v / radix, base);
    }
  }

  lemma {:induction false} LowDigitsLength(v: nat, radix: nat, base: nat, k: nat)
    requires 2 <= base <= radix <= 36 && v < Pow(base, k)
    ensures |LowDigits(v, radix)| <= k
    decreases v
  {
    hide LowDigits;
    ZeroDigits(radix);
    if v > 0 {
      NextDigit(v, radix);
      QuotientBound(v, radix, base, Pow(base, k - 1));
      LowDigitsLength(v / radix, radix, base, k - 1);
    }
  }

  // ----- the canonical numeral -----

  function Numeral(v: nat, radix: nat): string
    requires 2 <= radix <= 36
  {
    if v == 0 then "0" else Reversed(LowDigits(v, radix))
  }

  /** s is how v is written in the radix: digits only, no leading zero, and reading it back gives v. */
  ghost predicate Denotes(s: string, radix: nat, v: int) {
    && s != []
    && IsNumeral(s, radix)
    && (s[0] == '0' ==> |s| == 1)
    && Parse(s, radix) == v
  }

  lemma {:induction false} NumeralDenotes(v: nat, radix: nat)
    requires 2 <= radix <= 36
    ensures Denotes(Numeral(v, radix), radix, v)
  {
    if v > 0 {
      LowDigitsParse(v, radix);
      ParseReversed(LowDigits(v, radix), radix);
    } else {
      assert "0"[..0] == [];
    }
  }

  lemma {:induction false} LowDigitsOfSum(q: nat, radix: nat, d: nat)
    requires 2 <= radix <= 36 && d < radix && q + d > 0
    ensures q * radix + d > 0
    ensures LowDigits(q * radix + d, radix) == [DigitChar(d)] + LowDigits(q, radix)
  {
    Scale(1, radix, q);
    Quotient(q * radix + d, radix, q);
  }

  lemma {:induction false} ParseDigits(s: string, radix: nat)
    requires 2 <= radix <= 36 && s != [] && IsNumeral(s, radix) && s[0] != '0'
    ensures Parse(s, radix) > 0 && s == Reversed(LowDigits(Parse(s, radix), radix))
  {
    hide LowDigits, DigitChar;
    var p, c := s[..|s| - 1], s[|s| - 1];
    var d := DigitValue(c);
    LookupValue(d);
    assert DigitChar(d) == c;
    if p != [] {
      ParseDigits(p, radix);
    } else {
      assert LowDigits(0, radix) == [] by { ZeroDigits(radix); }
    }
    var q := Parse(p, radix);
    LowDigitsOfSum(q, radix, d);
    assert ([c] + LowDigits(q, radix))[1..] == LowDigits(q, radix);
    assert s == p + [c];
  }

  /** The numeral is the only string that denotes its value. */
  lemma {:induction false} NumeralIsUnique(s: string, v: nat, radix: nat)
    requires 2 <= radix <= 36
    ensures Denotes(s, radix, v) <==> s == Numeral(v, radix)
  {
    NumeralDenotes(v, radix);
    if Denotes(s, radix, v) {
      if s[0] != '0' {
        ParseDigits(s, radix);
      } else {
        assert s == "0" && s[..0] == [];
        assert Parse(s, radix) == 0;
      }
    }
  }

  /** A 32-bit value needs at most 32 digits, and in hexadecimal at most 8. */
  lemma {:induction false} NumeralLength(v: nat, radix: nat)
    requires 2 <= radix <= 36 && v < WORD
    ensures |Numeral(v, radix)| <= 32 && (radix == 16 ==> |Numeral(v, radix)| <= 8)
  {
    WordIsPower();
    LowDigitsLength(v, radix, 2, 32);
    if radix == 16 {
      LowDigitsLength(v, 16, 16, 8);
    }
  }

  // ----- strings in a buffer -----

  /** The NUL-terminated string that starts at `at` is t. */
  ghost predicate Holds(s: seq<char>, at: nat, t: string) {
    at + |t| < |s| && s[at..at + |t|] == t && s[at + |t|] == '\0' && '\0' !in t
  }

  lemma {:induction false} HeldReversed(s: seq<char>, at: nat, t: string)
    requires at + |t| < |s| && s[at + |t|] == '\0' && '\0' !in t
    requires forall j :: at <= j < at + |t| ==> s[j] == t[|t| - 1 - (j - at)]
    ensures Holds(s, at, Reversed(t))
  {
    assert s[at..at + |t|] == Reversed(t);
  }

  lemma {:induction false} ZeroHeld(s: seq<char>, at: nat)
    requires at + 1 < |s| && s[at] == '0' && s[at + 1] == '\0'
    ensures Holds(s, at, "0")
  {
    assert s[at..at + 1] == "0";
  }

  method Strlen(s: array<char>, at: nat, ghost t: string) returns (n: nat)
    requires Holds(s[..], at, t)
    ensures n == |t|
  {
    assert forall i :: 0 <= i < |t| ==> s[at + i] == t[i] by {
      forall i | 0 <= i < |t| ensures s[at + i] == t[i] {
        assert s[..][at..at + |t|][i] == s[at + i];
      }
    }
    n := 0;
    while s[at + n] != '\0'
      invariant n <= |t|
      decreases |t| - n
    {
      n := n + 1;
    }
  }

  method Strrev(s: array<char>, at: nat, ghost t: string)
    requires Holds(s[..], at, t)
    modifies s
    ensures Holds(s[..], at, Reversed(t))
    ensures forall i :: 0 <= i < s.Length && !(at <= i < at + |t|) ==> s[i] == old(s[i])
  {
    hide Reversed;
    var n: int := Strlen(s, at, t);
    var beg: int, end: int := 0, n - 1;
    assert forall j :: at <= j < at + n ==> s[j] == s[at..at + n][j - at];
    while beg < end
      invariant 0 <= beg && end == n - 1 - beg && beg <= n - beg + 1
      invariant forall j :: at <= j < at + n ==>
        s[j] == if j < at + beg || j > at + end then t[n - 1 - (j - at)] else t[j - at]
      invariant forall i :: 0 <= i < s.Length && !(at <= i < at + n) ==> s[i] == old(s[i])
    {
      s[at + end], s[at + beg] := s[at + beg], s[at + end];
      beg, end := beg + 1, end - 1;
    }
    HeldReversed(s[..], at, t);
  }

  lemma {:induction false} DigitsPrintable(value: nat, radix: nat)
    requires 2 <= radix <= 36
    ensures '\0' !in LowDigits(value, radix)
  {
    LowDigitsParse(value, radix);
  }

  method WriteDigits(value: nat, buf: array<char>, at: nat, radix: nat)
    requires 2 <= radix <= 36
    requires at + |LowDigits(value, radix)| < buf.Length
    modifies buf
    ensures Holds(buf[..], at, LowDigits(value, radix))
    ensures forall i :: 0 <= i < at ==> buf[i] == old(buf[i])
  {
    hide DigitChar, LowDigits;
    ZeroDigits(radix);
    ghost var low := LowDigits(value, radix);
    var newbuf: nat, newval: nat := at, value;
    while newval > 0
      invariant at <= newbuf <= at + |low|
      invariant buf[at..newbuf] + LowDigits(newval, radix) == low
      invariant forall i :: 0 <= i < at ==> buf[i] == old(buf[i])
    {
      NextDigit(newval, radix);
      ghost var written := buf[at..newbuf];
      var digit := DigitChar(newval % radix);
      buf[newbuf] := digit;
      assert buf[at..newbuf + 1] == written + [digit];
      newbuf := newbuf + 1;
      newval := newval / radix;
    }
    buf[newbuf] := '\0';
    assert buf[at..newbuf] == low;
    DigitsPrintable(value, radix);
  }

  method Itoa(value: nat, buf: array<char>, at: nat, radix: nat)
    requires 2 <= radix <= 36 && value < WORD
    requires at + |Numeral(value, radix)| < buf.Length
    modifies buf
    ensures Holds(buf[..], at, Numeral(value, radix))
    ensures forall i :: 0 <= i < at ==> buf[i] == old(buf[i])
  {
    hide LowDigits, Holds, Reversed;
    if value == 0 {
      buf[at] := '0';
      buf[at + 1] := '\0';
      ZeroHeld(buf[..], at);
      return;
    }
    WriteDigits(value, buf, at, radix);
    Strrev(buf, at, LowDigits(value, radix));
  }

  // ----- the number formats of printf -----

  function Zeros(n: nat): (s: string)
    ensures |s| == n && forall i :: 0 <= i < n ==> s[i] == '0'
  {
    if n == 0 then [] else Zeros(n - 1) + ['0']
  }

  lemma {:induction false} ParsePadded(n: nat, s: string, radix: nat)
    ensures Parse(Zeros(n) + s, radix) == Parse(s, radix)
    decreases n + |s|
  {
    var z := Zeros(n) + s;
    if s != [] {
      assert z[..|z| - 1] == Zeros(n) + s[..|s| - 1];
      ParsePadded(n, s[..|s| - 1], radix);
    } else if n > 0 {
      assert z[..|z| - 1] == Zeros(n - 1) + [];
      ParsePadded(n - 1, [], radix);
    }
  }

  lemma {:induction false} PaddedDenotes(value: nat, t: string)
    requires value < WORD && t == Numeral(value, 16)
    ensures |t| <= 8
    ensures var padded := Zeros(8 - |t|) + t; IsNumeral(padded, 16) && Parse(padded, 16) == value && '\0' !in padded
  {
    NumeralLength(value, 16);
    NumeralDenotes(value, 16);
    ParsePadded(8 - |t|, t, 16);
  }

  lemma {:induction false} PaddedHeld(s: seq<char>, t: string)
    requires |t| <= 8 && Holds(s, 8, t) && forall k :: |t| <= k < 8 ==> s[k] == '0'
    ensures Holds(s, |t|, Zeros(8 - |t|) + t)
  {
    var padded := Zeros(8 - |t|) + t;
    forall k | 0 <= k < 8 ensures s[|t| + k] == padded[k] {
      if k >= 8 - |t| {
        assert s[|t| + k] == s[8..8 + |t|][k - (8 - |t|)];
      }
    }
    assert s[|t|..|t| + 8] == padded;
  }

  /** "%#x": exactly eight hexadecimal digits, padded on the left with zeros. */
  method PrintHex(value: nat) returns (text: string)
    requires value < WORD
    ensures |text| == 8 && IsNumeral(text, 16) && Parse(text, 16) == value
  {
    hide Numeral, IsNumeral, Parse;
    ghost var t := Numeral(value, 16);
    PaddedDenotes(value, t);
    var buf := new char[64];
    Itoa(value, buf, 8, 16);
    var start := Strlen(buf, 8, t);
    var i: nat := start;
    while i < 8
      invariant start <= i <= 8
      invariant forall k :: start <= k < i ==> buf[k] == '0'
      invariant Holds(buf[..], 8, t)
    {
      buf[i] := '0';
      assert buf[8..8 + |t|] == t;
      i := i + 1;
    }
    PaddedHeld(buf[..], t);
    var n := Strlen(buf, start, Zeros(8 - |t|) + t);
    text := buf[start..start + n];
  }

  lemma {:induction false} SignHeld(s: seq<char>, t: string)
    requires Holds(s, 1, t) && s[0] == '-'
    ensures Holds(s, 0, ['-'] + t)
  {
    assert s[0..1 + |t|] == [s[0]] + s[1..1 + |t|];
  }

  /** "%d": a minus sign for negative values, then the magnitude in decimal. */
  method PrintSigned(value: int) returns (text: string)
    requires -0x8000_0000 <= value < 0x8000_0000
    ensures value >= 0 ==> Denotes(text, 10, value)
    ensures value < 0 ==> text != [] && text[0] == '-' && Denotes(text[1..], 10, -value)
  {
    hide Numeral, Denotes;
    var buf := new char[36];
    var magnitude: nat := if value < 0 then -value else value;
    ghost var t := Numeral(magnitude, 10);
    NumeralLength(magnitude, 10);
    NumeralDenotes(magnitude, 10);
    ghost var all := t;
    if value < 0 {
      buf[0] := '-';
      Itoa(magnitude, buf, 1, 10);
      SignHeld(buf[..], t);
      all := ['-'] + t;
      assert all[1..] == t;
    } else {
      Itoa(magnitude, buf, 0, 10);
    }
    var n := Strlen(buf, 0, all);
    text := buf[0..n];
    assert text == all;
  }
}

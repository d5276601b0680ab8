/** `strtoul(line, NULL, 10)` as the stack assembler applies it to the line
    after PUSH_IMM: the value of the decimal digits at the start of the line
    (none give 0), and the decimal rendering of a number that it reads
    back. */
module Decimal {

  predicate IsDigit(c: char)
  {
    '0' <= c <= '9'
  }

  predicate AllDigits(s: string)
  {
    forall i :: 0 <= i < |s| ==> IsDigit(s[i])
  }

  function DigitValue(c: char): (v: nat)
    requires IsDigit(c)
    ensures v < 10
  {
    c as int - '0' as int
  }

  function DigitChar(v: nat): (c: char)
    requires v < 10
    ensures IsDigit(c) && DigitValue(c) == v
  {
    ('0' as int + v) as char
  }

  /** The length of the run of digits that starts s. */
  function DigitRun(s: string): (n: nat)
    ensures n <= |s| && AllDigits(s[..n])
    ensures n < |s| ==> !IsDigit(s[n])
  {
    if s == [] || !IsDigit(s[0]) then 0
    else
      var n := 1 + DigitRun(s[1..]);
      assert s[..n] == [s[0]] + s[1..][..n - 1];
      n
  }

  /** A string of digits read in base 10, most significant first. */
  function DecimalValue(d: string): nat
    requires AllDigits(d)
  {
    if d == [] then 0 else DecimalValue(d[..|d| - 1]) * 10 + DigitValue(d[|d| - 1])
  }

  /** `strtoul(line, NULL, 10)` on a line that starts with its digits: 0
      when there are none, the whole line's value when it is all digits. */
  function ParseDecimal(line: string): (r: nat)
    ensures line == [] || !IsDigit(line[0]) ==> r == 0
    ensures AllDigits(line) ==> r == DecimalValue(line)
  {
    var n := DigitRun(line);
    assert line[..|line|] == line;
    DecimalValue(line[..n])
  }

  /** n in decimal, no leading zeros. */
  function Render(n: nat): (d: string)
    ensures |d| > 0 && AllDigits(d)
  {
    if n < 10 then [DigitChar(n)]
    else Render(n / 10) + [DigitChar(n % 10)]
  }

  lemma {:induction false} ValueOfRender(n: nat)
    ensures DecimalValue(Render(n)) == n
  {
    if n >= 10 {
      var d := Render(n);
      assert d[..|d| - 1] == Render(n / 10);
      ValueOfRender(n / 10);
    } else {
      var d := Render(n);
      assert d[..|d| - 1] == [];
    }
  }

  /** A run of digits followed by a non-digit is read to its end. */
  lemma {:induction false} DigitRunOfDigits(d: string, tail: string)
    requires AllDigits(d) && tail != [] && !IsDigit(tail[0])
    ensures DigitRun(d + tail) == |d|
  {
    if d != [] {
      assert (d + tail)[1..] == d[1..] + tail;
      DigitRunOfDigits(d[1..], tail);
    }
  }

  /** Reading stops at the first non-digit, whatever follows it. */
  lemma ParseStopsAtNonDigit(d: string, c: char, rest: string)
    requires AllDigits(d) && !IsDigit(c)
    ensures ParseDecimal(d + [c] + rest) == DecimalValue(d)
  {
    var s := d + [c] + rest;
    assert s == d + ([c] + rest);
    DigitRunOfDigits(d, [c] + rest);
    assert s[..|d|] == d;
  }

  /** The line holding a rendered number reads back as that number. */
  lemma ParseRenderedLine(n: nat)
    ensures ParseDecimal(Render(n) + "\n") == n
  {
    var d := Render(n);
    DigitRunOfDigits(d, "\n");
    assert (d + "\n")[..|d|] == d;
    ValueOfRender(n);
  }
}

/** `imm_bin_str`, the helper both assemblers carry (stack/assembler.c and
    reg/assembler.c hold the same copy), and `strtol(s, NULL, 2)` as the
    assemblers apply it to the binary strings that helper and their opcode
    tables produce. */
module ImmBin {

  /** BYTE_LEN: the number of characters `imm_bin_str` writes before the NUL. */
  const BYTE_LEN: nat := 8

  /** A uint8_t value. */
  type Byte = n: nat | n < 256

  function Pow2(n: nat): (r: nat)
    ensures r >= 1
  {
    if n == 0 then 1 else 2 * Pow2(n - 1)
  }

  /** n with its k lowest bits shifted out (n >> k). */
  function Shift(n: nat, k: nat): nat
  {
    if k == 0 then n else Shift(n / 2, k - 1)
  }

  /** Bit k of n, counting from the least significant bit. */
  predicate Bit(n: nat, k: nat)
  {
    Shift(n, k) % 2 == 1
  }

  /** The character written for a bit. */
  function BinDigit(b: bool): char
  {
    if b then '1' else '0'
  }

  /** The value of a binary digit character. */
  function BitValue(c: char): (v: nat)
    ensures v < 2
  {
    if c == '1' then 1 else 0
  }

  predicate IsBinary(s: string)
  {
    forall i :: 0 <= i < |s| ==> s[i] == '0' || s[i] == '1'
  }

  /** `strtol(s, NULL, 2)` on a string of binary digits: the digits are read
      most significant first, each one doubling what was read before. */
  function ParseBinary(s: string): (r: nat)
    requires IsBinary(s)
    ensures r < Pow2(|s|)
  {
    if s == [] then 0
    else ParseBinary(s[..|s| - 1]) * 2 + BitValue(s[|s| - 1])
  }

  /** The low c bits of n as c binary digits, most significant first: the
      characters `imm_bin_str` writes, built from the last one backwards. */
  function Digits(n: nat, c: nat): (s: string)
    ensures |s| == c
  {
    if c == 0 then [] else Digits(n / 2, c - 1) + [BinDigit(n % 2 == 1)]
  }

  /** Shifting once more halves the value. */
  lemma {:induction false} ShiftOnce(n: nat, k: nat)
    ensures Shift(n, k + 1) == Shift(n, k) / 2
  {
    if k > 0 {
      ShiftOnce(n / 2, k - 1);
    }
  }

  /** Character i of Digits(n, c) is bit c - 1 - i of n. */
  lemma {:induction false} DigitsAt(n: nat, c: nat, i: nat)
    requires i < c
    ensures Digits(n, c)[i] == BinDigit(Bit(n, c - 1 - i))
  {
    if i < c - 1 {
      DigitsAt(n / 2, c - 1, i);
    }
  }

  lemma DigitsMsbFirst(n: nat, c: nat)
    ensures forall i :: 0 <= i < c ==> Digits(n, c)[i] == BinDigit(Bit(n, c - 1 - i))
  {
    forall i | 0 <= i < c {
      DigitsAt(n, c, i);
    }
  }

  lemma DigitsAreBinary(n: nat, c: nat)
    ensures IsBinary(Digits(n, c))
  {
    forall i | 0 <= i < c {
      DigitsAt(n, c, i);
    }
  }

  /** One more digit in front: bit c of n followed by the c digits below it. */
  lemma DigitsCons(n: nat, c: nat)
    ensures Digits(n, c + 1) == [BinDigit(Bit(n, c))] + Digits(n, c)
  {
    var s, t := Digits(n, c + 1), [BinDigit(Bit(n, c))] + Digits(n, c);
    forall i | 0 <= i < c + 1 ensures s[i] == t[i] {
      DigitsAt(n, c + 1, i);
      if i > 0 {
        DigitsAt(n, c, i - 1);
      }
    }
  }

  /** Putting the low bit back below the digits of n / 2. */
  lemma Recombine(n: nat, low: nat, hi: nat, p: nat)
    requires low + hi * p == n / 2
    ensures 2 * low + n % 2 + hi * (2 * p) == n
  {
    assert hi * (2 * p) == 2 * (hi * p);
  }

  /** The c digits read in base 2, plus what was shifted out above them,
      give n back. */
  lemma {:induction false} ParseDigits(n: nat, c: nat)
    ensures IsBinary(Digits(n, c))
    ensures ParseBinary(Digits(n, c)) + Shift(n, c) * Pow2(c) == n
  {
    DigitsAreBinary(n, c);
    if c > 0 {
      var s := Digits(n, c);
      assert s[..c - 1] == Digits(n / 2, c - 1);
      ParseDigits(n / 2, c - 1);
      var low := ParseBinary(s[..c - 1]);
      var hi := Shift(n, c);
      assert hi == Shift(n / 2, c - 1);
      assert ParseBinary(s) == 2 * low + n % 2;
      Recombine(n, low, hi, Pow2(c - 1));
    }
  }

  /** Reading the eight digits of a byte in base 2 gives the byte back. */
  lemma ParseByteDigits(imm: Byte)
    ensures IsBinary(Digits(imm, BYTE_LEN))
    ensures ParseBinary(Digits(imm, BYTE_LEN)) == imm
  {
    ParseDigits(imm, BYTE_LEN);
    var hi := Shift(imm, BYTE_LEN);
    assert Pow2(BYTE_LEN) == 256;
    assert hi * 256 <= imm < 256;
  }

  /** One pass of the loop in `imm_bin_str`: with `done` digits written and v
      the rest of imm, the low bit of v (`imm & 1`) is the next digit to the
      left and v / 2 (`imm >>= 1`) is what remains after it. */
  lemma FillStep(imm: Byte, v: nat, done: nat)
    requires v == Shift(imm, done)
    ensures v / 2 == Shift(imm, done + 1)
    ensures Digits(imm, done + 1) == [BinDigit(v % 2 == 1)] + Digits(imm, done)
  {
    ShiftOnce(imm, done);
    DigitsCons(imm, done);
  }

  /** `imm_bin_str(imm)`: fills an 8-character buffer back to front with the
      low bit of imm, shifting imm right after each character. The result is
      imm written in binary, most significant bit first (character i is bit
      7 - i), so `strtol(_, 2)` reads imm back. */
  method ImmBinStr(imm: Byte) returns (s: string)
    ensures s == Digits(imm, BYTE_LEN)
    ensures IsBinary(s) && ParseBinary(s) == imm
  {
    var buf := new char[BYTE_LEN];
    var v: nat := imm;
    var i: int := BYTE_LEN - 1;
    while i >= 0
      invariant -1 <= i < BYTE_LEN
      invariant v == Shift(imm, BYTE_LEN - 1 - i)
      invariant buf[i + 1..] == Digits(imm, BYTE_LEN - 1 - i)
    {
      FillStep(imm, v, BYTE_LEN - 1 - i);
      buf[i] := BinDigit(v % 2 == 1);
      assert buf[i..] == [buf[i]] + buf[i + 1..];
      v := v / 2;
      i := i - 1;
    }
    s := buf[..];
    assert s == buf[0..];
    ParseByteDigits(imm);
  }

  /** Reading one more digit of s doubles what was read and adds it. */
  lemma ParsePrefix(s: string, k: nat)
    requires IsBinary(s) && 0 < k <= |s|
    ensures IsBinary(s[..k]) && IsBinary(s[..k - 1])
    ensures ParseBinary(s[..k]) == 2 * ParseBinary(s[..k - 1]) + BitValue(s[k - 1])
  {
    assert s[..k][..k - 1] == s[..k - 1];
  }

  /** A four-digit string read in base 2, digit by digit. */
  lemma ParseFour(s: string)
    requires |s| == 4 && IsBinary(s)
    ensures ParseBinary(s) == 8 * BitValue(s[0]) + 4 * BitValue(s[1]) + 2 * BitValue(s[2]) + BitValue(s[3])
  {
    ParsePrefix(s, 1);
    ParsePrefix(s, 2);
    ParsePrefix(s, 3);
    ParsePrefix(s, 4);
    assert s[..0] == [];
    assert s[..4] == s;
  }

  /** An eight-digit string read in base 2, digit by digit. */
  lemma ParseEight(s: string)
    requires |s| == 8 && IsBinary(s)
    ensures ParseBinary(s) == 128 * BitValue(s[0]) + 64 * BitValue(s[1]) + 32 * BitValue(s[2])
      + 16 * BitValue(s[3]) + 8 * BitValue(s[4]) + 4 * BitValue(s[5]) + 2 * BitValue(s[6]) + BitValue(s[7])
  {
    var high := s[..4];
    assert IsBinary(high);
    ParseFour(high);
    ParsePrefix(s, 5);
    ParsePrefix(s, 6);
    ParsePrefix(s, 7);
    ParsePrefix(s, 8);
    assert s[..8] == s;
  }
}

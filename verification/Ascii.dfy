/** Character classes and C library number readers the parsers call.  A byte is a `char`; bytes
    from 128 up are negative in the source's signed `char` and belong to no class. */
module Ascii {

  predicate IsDigit(c: char) { '0' <= c <= '9' }

  predicate IsAlpha(c: char) { 'a' <= c <= 'z' || 'A' <= c <= 'Z' }

  predicate IsAlnum(c: char) { IsDigit(c) || IsAlpha(c) }

  predicate IsSpace(c: char) { c == ' ' || '\t' <= c <= '\r' }

  function ToLower(c: char): char {
    if 'A' <= c <= 'Z' then (c as int + 32) as char else c
  }

  function Lower(s: string): string { seq(|s|, i requires 0 <= i < |s| => ToLower(s[i])) }

  /** `strcasecmp(a, b) == 0` for strings without a NUL. */
  predicate EqualsIgnoreCase(a: string, b: string) { Lower(a) == Lower(b) }

  ghost predicate All(p: char -> bool, s: string) { forall i | 0 <= i < |s| :: p(s[i]) }

  function DigitValue(c: char): nat
    requires IsDigit(c)
  {
    c as int - '0' as int
  }

  function DigitChar(d: nat): char
    requires d < 10
  {
    (d + '0' as int) as char
  }

  /** Decimal digits of `n`, without a leading zero. */
  function Decimal(n: nat): string {
    if n < 10 then [DigitChar(n)] else Decimal(n / 10) + [DigitChar(n % 10)]
  }

  /** Value of the longest run of decimal digits at the front of `s`, continuing from `acc`. */
  function ReadDigits(s: string, acc: nat): nat {
    if s == [] || !IsDigit(s[0]) then acc else ReadDigits(s[1..], acc * 10 + DigitValue(s[0]))
  }

  function SkipSpace(s: string): string {
    if s != [] && IsSpace(s[0]) then SkipSpace(s[1..]) else s
  }

  /** `atoi`, on unbounded integers. */
  function Atoi(s: string): int {
    var t := SkipSpace(s);
    if t != [] && t[0] == '-' then 0 - ReadDigits(t[1..], 0)
    else if t != [] && t[0] == '+' then ReadDigits(t[1..], 0)
    else ReadDigits(t, 0)
  }

  predicate IsHex(c: char) { IsDigit(c) || 'a' <= c <= 'f' || 'A' <= c <= 'F' }

  function HexValue(c: char): nat
    requires IsHex(c)
  {
    if IsDigit(c) then DigitValue(c) else ToLower(c) as int - 'a' as int + 10
  }

  function ReadHex(s: string, acc: nat): nat {
    if s == [] || !IsHex(s[0]) then acc else ReadHex(s[1..], acc * 16 + HexValue(s[0]))
  }

  /** `strtol(s, NULL, 16)` on a string of letters and digits, before saturation. */
  function HexNumber(s: string): nat {
    if |s| >= 2 && s[0] == '0' && (s[1] == 'x' || s[1] == 'X') then ReadHex(s[2..], 0)
    else ReadHex(s, 0)
  }

  function HexChar(d: nat): char
    requires d < 16
  {
    if d < 10 then DigitChar(d) else (d - 10 + 'a' as int) as char
  }

  /** Lower-case hexadecimal digits of `n`. */
  function Hex(n: nat): string {
    if n < 16 then [HexChar(n)] else Hex(n / 16) + [HexChar(n % 16)]
  }

  lemma {:induction false} ReadDigitsAppend(s: string, c: char, acc: nat)
    requires All(IsDigit, s) && IsDigit(c)
    ensures ReadDigits(s + [c], acc) == ReadDigits(s, acc) * 10 + DigitValue(c)
  {
    if s == [] {
      assert ReadDigits([c], acc) == ReadDigits([c][1..], acc * 10 + DigitValue(c));
    } else {
      assert (s + [c])[1..] == s[1..] + [c];
      ReadDigitsAppend(s[1..], c, acc * 10 + DigitValue(s[0]));
    }
  }

  lemma {:induction false} DecimalDigits(n: nat)
    ensures All(IsDigit, Decimal(n)) && |Decimal(n)| > 0
    ensures ReadDigits(Decimal(n), 0) == n
  {
    if n < 10 {
      assert ReadDigits(Decimal(n), 0) == ReadDigits(Decimal(n)[1..], n);
    } else {
      DecimalDigits(n / 10);
      ReadDigitsAppend(Decimal(n / 10), DigitChar(n % 10), 0);
    }
  }

  /** Reading a number back from its decimal spelling: the inverse law behind Content-Length and ports. */
  lemma AtoiDecimal(n: nat)
    ensures Atoi(Decimal(n)) == n
  {
    DecimalDigits(n);
    assert IsDigit(Decimal(n)[0]);
  }

  lemma {:induction false} ReadHexAppend(s: string, c: char, acc: nat)
    requires All(IsHex, s) && IsHex(c)
    ensures ReadHex(s + [c], acc) == ReadHex(s, acc) * 16 + HexValue(c)
  {
    if s == [] {
      assert ReadHex([c], acc) == ReadHex([c][1..], acc * 16 + HexValue(c));
    } else {
      assert (s + [c])[1..] == s[1..] + [c];
      ReadHexAppend(s[1..], c, acc * 16 + HexValue(s[0]));
    }
  }

  lemma {:induction false} HexDigits(n: nat)
    ensures All(IsHex, Hex(n)) && |Hex(n)| > 0
    ensures ReadHex(Hex(n), 0) == n
  {
    if n < 16 {
      assert ReadHex(Hex(n), 0) == ReadHex(Hex(n)[1..], n);
    } else {
      HexDigits(n / 16);
      ReadHexAppend(Hex(n / 16), HexChar(n % 16), 0);
    }
  }

  /** Case of the digits and leading zeros do not change the number a hex spelling denotes. */
  lemma {:induction false} ReadHexIgnoresCase(s: string, t: string, acc: nat)
    requires Lower(s) == Lower(t)
    ensures ReadHex(s, acc) == ReadHex(t, acc)
  {
    assert |s| == |Lower(s)| == |Lower(t)| == |t|;
    if s != [] {
      assert ToLower(s[0]) == Lower(s)[0] == Lower(t)[0] == ToLower(t[0]);
      forall i | 0 <= i < |s| - 1 ensures Lower(s[1..])[i] == Lower(t[1..])[i] {
        assert Lower(s)[i + 1] == Lower(t)[i + 1];
      }
      assert Lower(s[1..]) == Lower(t[1..]);
      if IsHex(s[0]) { ReadHexIgnoresCase(s[1..], t[1..], acc * 16 + HexValue(s[0])); }
    }
  }

  lemma {:induction false} ReadHexLeadingZeros(k: nat, s: string)
    ensures ReadHex(seq(k, _ => '0') + s, 0) == ReadHex(s, 0)
  {
    if k == 0 {
      assert seq(0, _ => '0') + s == s;
    } else {
      assert (seq(k, _ => '0') + s)[1..] == seq(k - 1, _ => '0') + s;
      ReadHexLeadingZeros(k - 1, s);
    }
  }

  /** Every spelling of `n` with any case and any number of leading zeros, with or without `0x`,
      is read back as `n`. */
  lemma HexSpellings(n: nat, zeros: nat, digits: string)
    requires Lower(digits) == Lower(Hex(n))
    ensures HexNumber(seq(zeros, _ => '0') + digits) == n
    ensures HexNumber("0x" + seq(zeros, _ => '0') + digits) == n
  {
    HexDigits(n);
    ReadHexIgnoresCase(digits, Hex(n), 0);
    ReadHexLeadingZeros(zeros, digits);
    var s := seq(zeros, _ => '0') + digits;
    assert ("0x" + s)[2..] == s;
    assert "0x" + seq(zeros, _ => '0') + digits == "0x" + s;
    LowerHexIsHex(n, digits);
    assert All(IsHex, s);
    if |s| >= 2 { assert IsHex(s[1]); }
  }

  lemma LowerHexIsHex(n: nat, digits: string)
    requires Lower(digits) == Lower(Hex(n))
    ensures All(IsHex, digits)
  {
    HexDigits(n);
    assert |digits| == |Lower(digits)| == |Hex(n)|;
    forall i | 0 <= i < |digits| ensures IsHex(digits[i]) {
      assert ToLower(digits[i]) == Lower(digits)[i] == Lower(Hex(n))[i] == ToLower(Hex(n)[i]);
    }
  }

  // ---------- The classes and readers, spelled out ----------

  /** Equal, or the two cases of one letter. */
  predicate SameLetter(a: char, b: char) {
    a == b || (IsAlpha(a) && IsAlpha(b) && (a as int - b as int == 32 || b as int - a as int == 32))
  }

  /** The same text but for the case of its letters. */
  ghost predicate SameButCase(a: string, b: string) { |a| == |b| && forall i | 0 <= i < |a| :: SameLetter(a[i], b[i]) }

  lemma IgnoringCaseMeans(a: string, b: string)
    ensures EqualsIgnoreCase(a, b) <==> SameButCase(a, b)
  {
    assert |Lower(a)| == |a| && |Lower(b)| == |b|;
    if EqualsIgnoreCase(a, b) {
      forall i | 0 <= i < |a| ensures SameLetter(a[i], b[i]) { assert Lower(a)[i] == Lower(b)[i]; }
    }
    if SameButCase(a, b) {
      forall i | 0 <= i < |a| ensures Lower(a)[i] == Lower(b)[i] { assert SameLetter(a[i], b[i]); }
    }
  }

  lemma ClassesSpelled(c: char)
    ensures IsDigit(c) <==> c in "0123456789"
    ensures IsAlpha(c) <==> c in "abcdefghijklmnopqrstuvwxyzABCDEFGHIJKLMNOPQRSTUVWXYZ"
    ensures IsAlnum(c) <==> IsDigit(c) || IsAlpha(c)
    ensures IsHex(c) <==> c in "0123456789abcdefABCDEF"
    ensures IsSpace(c) <==> c in " \t\n\r" + [0xB as char, 0xC as char]
  {
    Digits(c);
    Letters(c);
  }

  lemma Digits(c: char)
    ensures IsDigit(c) <==> c in "0123456789"
    ensures IsHex(c) <==> c in "0123456789abcdefABCDEF"
  {
  }

  lemma Letters(c: char)
    ensures IsAlpha(c) <==> c in "abcdefghijklmnopqrstuvwxyzABCDEFGHIJKLMNOPQRSTUVWXYZ"
  {
    LowerLetters(c);
    UpperLetters(c);
    var l, u := "abcdefghijklmnopqrstuvwxyz", "ABCDEFGHIJKLMNOPQRSTUVWXYZ";
    assert l + u == "abcdefghijklmnopqrstuvwxyzABCDEFGHIJKLMNOPQRSTUVWXYZ";
  }

  lemma LowerLetters(c: char)
    ensures 'a' <= c <= 'z' <==> c in "abcdefghijklmnopqrstuvwxyz"
  {
    var s := "abcdefghijklmnopqrstuvwxyz";
    if 'a' <= c <= 'z' { assert s[c as int - 'a' as int] == c; }
  }

  lemma UpperLetters(c: char)
    ensures 'A' <= c <= 'Z' <==> c in "ABCDEFGHIJKLMNOPQRSTUVWXYZ"
  {
    var s := "ABCDEFGHIJKLMNOPQRSTUVWXYZ";
    if 'A' <= c <= 'Z' { assert s[c as int - 'A' as int] == c; }
  }

  lemma {:induction false} ReadDigitsStops(s: string, rest: string, acc: nat)
    requires All(IsDigit, s) && (rest == "" || !IsDigit(rest[0]))
    ensures ReadDigits(s + rest, acc) == ReadDigits(s, acc)
  {
    if s == "" {
      assert s + rest == rest;
    } else {
      assert (s + rest)[1..] == s[1..] + rest;
      ReadDigitsStops(s[1..], rest, acc * 10 + DigitValue(s[0]));
    }
  }

  lemma {:induction false} SkipsBlanks(blanks: string, s: string)
    requires All(IsSpace, blanks) && (s == "" || !IsSpace(s[0]))
    ensures SkipSpace(blanks + s) == s
  {
    if blanks == "" {
      assert blanks + s == s;
    } else {
      assert (blanks + s)[1..] == blanks[1..] + s;
      SkipsBlanks(blanks[1..], s);
    }
  }

  /** `atoi` skips blanks, takes one sign, and stops at the first byte that is no digit. */
  lemma AtoiSpellings(blanks: string, n: nat, rest: string)
    requires All(IsSpace, blanks) && (rest == "" || !IsDigit(rest[0]))
    ensures Atoi(blanks + (Decimal(n) + rest)) == n
    ensures Atoi(blanks + ("+" + (Decimal(n) + rest))) == n
    ensures Atoi(blanks + ("-" + (Decimal(n) + rest))) == 0 - n
    ensures (rest == "" || (!IsSpace(rest[0]) && rest[0] != '-' && rest[0] != '+')) ==> Atoi(blanks + rest) == 0
  {
    DecimalDigits(n);
    ReadDigitsStops(Decimal(n), rest, 0);
    var d := Decimal(n) + rest;
    assert IsDigit(d[0]);
    SkipsBlanks(blanks, d);
    SkipsBlanks(blanks, "+" + d);
    SkipsBlanks(blanks, "-" + d);
    assert ("+" + d)[1..] == d && ("-" + d)[1..] == d;
    if rest == "" || (!IsSpace(rest[0]) && rest[0] != '-' && rest[0] != '+') { SkipsBlanks(blanks, rest); }
  }
}

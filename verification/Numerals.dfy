/**
 Printing and parsing numerals (kernel/base/strhelpers.c): `uitoa64` and `itoa_signed` write
 digits backwards into a buffer and reverse it in place; `strtoul` and `strtol` read them back.
 Strings are read up to their terminating NUL.
 */
module Numerals {

  const TWO64 := 0x1_0000_0000_0000_0000
  const TWO63 := 0x8000_0000_0000_0000

  // ---- digits ----------------------------------------------------------------------

  function DigitChar(d: nat): char
    requires d < 36
  {
    if d < 10 then '0' + d as char else 'a' + (d - 10) as char
  }

  /** The value of a digit character in the largest base; 36 when it is not one. */
  function DigitValue(c: char): (d: nat)
    ensures d <= 36
  {
    if '0' <= c <= '9' then (c - '0') as nat
    else if 'a' <= c <= 'z' then (c - 'a') as nat + 10
    else if 'A' <= c <= 'Z' then (c - 'A') as nat + 10
    else 36
  }

  lemma DigitRoundTrip(d: nat)
    requires d < 36
    ensures DigitValue(DigitChar(d)) == d
    ensures DigitChar(d) == '0' <==> d == 0
    ensures DigitChar(d) !in "\0 \t\n\r+-"
  {
  }

  lemma DivSmaller(v: nat, base: nat)
    requires base >= 2
    ensures 0 <= v / base <= v && (v > 0 ==> v / base < v)
  {
    var q := v / base;
    assert v == q * base + v % base;
    assert q * base == q * 2 + q * (base - 2);
    if q > 0 { assert q * (base - 2) >= 0; }
  }

  function Quot(v: nat, base: nat): (q: nat)
    requires base >= 2
    ensures q <= v && (v > 0 ==> q < v)
  {
    DivSmaller(v, base);
    v / base
  }

  function Rem(v: nat, base: nat): (d: nat)
    requires base >= 2
    ensures d < base
  {
    v % base
  }

  lemma QuotRem(v: nat, base: nat)
    requires base >= 2
    ensures v == Quot(v, base) * base + Rem(v, base)
  {
  }

  /** The digits of `v`, least significant first, as the printing loop produces them. */
  function LowDigits(v: nat, base: nat): seq<char>
    requires 2 <= base <= 36
  {
    [DigitChar(Rem(v, base))] + if Quot(v, base) == 0 then [] else LowDigits(Quot(v, base), base)
  }

  /** The numeral of `v`, most significant digit first. */
  function Digits(v: nat, base: nat): (r: seq<char>)
    requires 2 <= base <= 36
    ensures r != []
  {
    (if Quot(v, base) == 0 then [] else Digits(Quot(v, base), base)) + [DigitChar(Rem(v, base))]
  }

  function Reversed(s: seq<char>): (r: seq<char>)
    ensures |r| == |s| && forall i :: 0 <= i < |s| ==> r[i] == s[|s| - 1 - i]
  {
    seq(|s|, i requires 0 <= i < |s| => s[|s| - 1 - i])
  }

  lemma {:induction false} ReversedLowDigits(v: nat, base: nat)
    requires 2 <= base <= 36
    ensures Reversed(LowDigits(v, base)) == Digits(v, base)
  {
    hide Quot, Rem, DigitChar;
    var last := [DigitChar(Rem(v, base))];
    if Quot(v, base) != 0 {
      ReversedLowDigits(Quot(v, base), base);
      var low := LowDigits(Quot(v, base), base);
      assert Reversed(last + low) == Reversed(low) + last;
    } else {
      assert Reversed(last) == last;
    }
  }

  // ---- printing --------------------------------------------------------------------

  /** `reverse_str`. */
  method ReverseStr(str: array<char>, len: nat)
    requires len <= str.Length
    modifies str
    ensures str[..len] == Reversed(old(str[..len]))
    ensures forall x :: len <= x < str.Length ==> str[x] == old(str[x])
  {
    var i, j := 0, len - 1;
    while i < j
      invariant 0 <= i <= j + 1 && j == len - 1 - i
      invariant forall x :: 0 <= x < i ==> str[x] == old(str[len - 1 - x]) && str[len - 1 - x] == old(str[x])
      invariant forall x :: i <= x <= j ==> str[x] == old(str[x])
      invariant forall x :: len <= x < str.Length ==> str[x] == old(str[x])
    {
      str[i], str[j] := str[j], str[i];
      i, j := i + 1, j - 1;
    }
  }

  /** What is left to print when only `rest` remains of the value. */
  function Remaining(rest: nat, base: nat): seq<char>
    requires 2 <= base <= 36
  {
    if rest == 0 then [] else LowDigits(rest, base)
  }

  lemma LowDigitsStep(v: nat, base: nat)
    requires 2 <= base <= 36
    ensures LowDigits(v, base) == [DigitChar(Rem(v, base))] + Remaining(Quot(v, base), base)
  {
  }

  /** The digit loop shared by the printing functions. */
  method EmitDigits(value: nat, str: array<char>, base: nat) returns (i: nat)
    requires 2 <= base <= 36 && |LowDigits(value, base)| <= str.Length
    modifies str
    ensures i == |LowDigits(value, base)| && str[..i] == LowDigits(value, base)
    ensures forall x :: i <= x < str.Length ==> str[x] == old(str[x])
  {
    hide Quot, Rem, DigitChar, LowDigits;
    LowDigitsStep(value, base);
    str[0] := DigitChar(Rem(value, base));
    i := 1;
    var rest := Quot(value, base);
    ghost var done, todo := [str[0]], Remaining(rest, base);
    while rest != 0
      invariant LowDigits(value, base) == done + todo && i == |done| && todo == Remaining(rest, base)
      invariant forall x :: 0 <= x < i ==> str[x] == done[x]
      invariant forall x :: i <= x < str.Length ==> str[x] == old(str[x])
      decreases rest
    {
      LowDigitsStep(rest, base);
      str[i] := DigitChar(Rem(rest, base));
      i := i + 1;
      rest := Quot(rest, base);
      NextDigit(done, todo, Remaining(rest, base));
      done, todo := done + [todo[0]], todo[1..];
    }
  }

  lemma NextDigit(done: seq<char>, todo: seq<char>, rest: seq<char>)
    requires todo != [] && todo == [todo[0]] + rest
    ensures done + todo == done + [todo[0]] + todo[1..] && todo[1..] == rest
  {
  }

  /** `uitoa64`: the numeral and a terminator, or an empty string for a bad base. */
  method Uitoa64(value: nat, str: array<char>, base: int)
    requires value < TWO64 && str.Length > 0
    requires 2 <= base <= 36 ==> |Digits(value, base)| < str.Length
    modifies str
    ensures !(2 <= base <= 36) ==> str[0] == '\0'
    ensures 2 <= base <= 36 ==> str[..|Digits(value, base)| + 1] == Digits(value, base) + ['\0']
  {
    if base < 2 || base > 36 {
      str[0] := '\0';
      return;
    }
    ReversedLowDigits(value, base);
    var i := EmitDigits(value, str, base);
    str[i] := '\0';
    ReverseStr(str, i);
    assert str[..i + 1] == str[..i] + ['\0'];
  }

  /** The values `itoa_signed` is defined for: negating the most negative one overflows. */
  predicate Printable(value: int, base: int) {
    -TWO63 <= value < TWO63 && !(value == -TWO63 && base == 10)
  }

  /** The unsigned value whose digits are printed: two's complement except in base ten. */
  function Magnitude(value: int, base: int): nat
    requires Printable(value, base)
  {
    if value >= 0 then value else if base == 10 then -value else value + TWO64
  }

  /** What `itoa_signed` prints: a sign only in base ten. */
  function SignedNumeral(value: int, base: nat): seq<char>
    requires 2 <= base <= 36 && Printable(value, base)
  {
    (if value < 0 && base == 10 then ['-'] else []) + Digits(Magnitude(value, base), base)
  }

  /** What is in the buffer before it is reversed. */
  ghost function SignedLow(value: int, base: nat): seq<char>
    requires 2 <= base <= 36 && Printable(value, base)
  {
    LowDigits(Magnitude(value, base), base) + if value < 0 && base == 10 then ['-'] else []
  }

  lemma ReversedSignedLow(value: int, base: nat)
    requires 2 <= base <= 36 && Printable(value, base)
    ensures Reversed(SignedLow(value, base)) == SignedNumeral(value, base)
  {
    hide LowDigits, Digits, Magnitude;
    ReversedLowDigits(Magnitude(value, base), base);
  }

  /** `itoa_signed`. */
  method ItoaSigned(value: int, str: array<char>, base: int)
    requires Printable(value, base) && str.Length > 0
    requires 2 <= base <= 36 ==> |SignedNumeral(value, base)| < str.Length
    modifies str
    ensures !(2 <= base <= 36) ==> str[0] == '\0'
    ensures 2 <= base <= 36 ==> str[..|SignedNumeral(value, base)| + 1] == SignedNumeral(value, base) + ['\0']
  {
    if base < 2 || base > 36 {
      str[0] := '\0';
      return;
    }
    hide LowDigits, Digits, Magnitude, SignedNumeral;
    ReversedSignedLow(value, base);
    var i := EmitDigits(Magnitude(value, base), str, base);
    if value < 0 && base == 10 {
      str[i] := '-';
      i := i + 1;
    }
    assert str[..i] == SignedLow(value, base);
    str[i] := '\0';
    ReverseStr(str, i);
    assert str[..i + 1] == str[..i] + ['\0'];
  }

  // ---- parsing ---------------------------------------------------------------------

  /** A C string: its only NUL is the last element. */
  ghost predicate Terminated(s: seq<char>) {
    s != [] && s[|s| - 1] == '\0' && forall i :: 0 <= i < |s| - 1 ==> s[i] != '\0'
  }

  predicate IsSpace(c: char) {
    c == ' ' || c == '\t' || c == '\n' || c == '\r' || c == 11 as char || c == 12 as char
  }

  /** The first position from `i` on that is not white space. */
  function SkipSpaces(s: seq<char>, i: nat): (r: nat)
    requires i < |s| && Terminated(s)
    ensures i <= r < |s| && !IsSpace(s[r])
    decreases |s| - i
  {
    if IsSpace(s[i]) then SkipSpaces(s, i + 1) else i
  }

  datatype Start = Start(pos: nat, base: int)

  /** Where the digits begin and in which base: `0x` and `0` prefixes. */
  function Prefix(s: seq<char>, i: nat, base: int): (r: Start)
    requires i < |s| && Terminated(s)
    ensures i <= r.pos < |s|
  {
    var hex := s[i] == '0' && (s[i + 1] == 'x' || s[i + 1] == 'X');
    if base == 0 then
      if hex then Start(i + 2, 16) else if s[i] == '0' then Start(i + 1, 8) else Start(i, 10)
    else if base == 16 && hex then Start(i + 2, 16)
    else Start(i, base)
  }

  /** One more digit; unsigned arithmetic wraps at 64 bits. */
  function Shift(acc: nat, base: nat, d: nat, unsigned: bool): nat {
    if unsigned then (acc * base + d) % TWO64 else acc * base + d
  }

  datatype Scanned = Scanned(value: nat, end: nat)

  /** The digit loop: stop at the terminator or at the first character that is no digit of the base. */
  function Scan(s: seq<char>, i: nat, base: int, acc: nat, unsigned: bool): (r: Scanned)
    requires i < |s| && Terminated(s)
    ensures i <= r.end < |s|
    decreases |s| - i
  {
    var d := DigitValue(s[i]);
    if s[i] == '\0' || d == 36 || d >= base then Scanned(acc, i)
    else Scan(s, i + 1, base, Shift(acc, base, d, unsigned), unsigned)
  }

  datatype Parsed = Parsed(value: int, end: nat)

  /** `end` is the start of the string when no digit was read. */
  function Finish(r: Scanned, start: nat, neg: bool): Parsed {
    Parsed(if neg then 0 - r.value else r.value, if r.end != start then r.end else 0)
  }

  function ParseUnsigned(s: seq<char>, base: int): Parsed
    requires Terminated(s)
  {
    var i := SkipSpaces(s, 0);
    var st := Prefix(s, if s[i] == '+' then i + 1 else i, base);
    Finish(Scan(s, st.pos, st.base, 0, true), st.pos, false)
  }

  function ParseSigned(s: seq<char>, base: int): Parsed
    requires Terminated(s)
  {
    var i := SkipSpaces(s, 0);
    var st := Prefix(s, if s[i] == '-' || s[i] == '+' then i + 1 else i, base);
    Finish(Scan(s, st.pos, st.base, 0, false), st.pos, s[i] == '-')
  }

  method SkipWhitespace(s: seq<char>) returns (i: nat)
    requires Terminated(s)
    ensures i == SkipSpaces(s, 0)
  {
    i := 0;
    while IsSpace(s[i])
      invariant i < |s| && SkipSpaces(s, i) == SkipSpaces(s, 0)
      decreases |s| - i
    {
      i := i + 1;
    }
  }

  method ScanDigits(s: seq<char>, start: nat, base: int, unsigned: bool) returns (result: nat, i: nat)
    requires start < |s| && Terminated(s)
    ensures Scanned(result, i) == Scan(s, start, base, 0, unsigned)
  {
    hide Shift;
    result, i := 0, start;
    while s[i] != '\0'
      invariant start <= i < |s|
      invariant Scan(s, i, base, result, unsigned) == Scan(s, start, base, 0, unsigned)
      decreases |s| - i
    {
      var digit := DigitValue(s[i]);
      if digit == 36 || digit >= base {
        break;
      }
      result := Shift(result, base, digit, unsigned);
      i := i + 1;
    }
  }

  /** `strtoul`. */
  method Strtoul(s: seq<char>, base: int) returns (value: nat, end: nat)
    requires Terminated(s)
    ensures Parsed(value, end) == ParseUnsigned(s, base)
  {
    var i := SkipWhitespace(s);
    if s[i] == '+' {
      i := i + 1;
    }
    var st := Prefix(s, i, base);
    value, end := ScanDigits(s, st.pos, st.base, true);
    if end == st.pos {
      end := 0;
    }
  }

  /** `strtol`. */
  method Strtol(s: seq<char>, base: int) returns (value: int, end: nat)
    requires Terminated(s)
    ensures Parsed(value, end) == ParseSigned(s, base)
  {
    var i := SkipWhitespace(s);
    var neg := s[i] == '-';
    if neg || s[i] == '+' {
      i := i + 1;
    }
    var st := Prefix(s, i, base);
    value, end := ScanDigits(s, st.pos, st.base, false);
    if end == st.pos {
      end := 0;
    }
    if neg {
      value := -value;
    }
  }

  // ---- round trips -----------------------------------------------------------------

  lemma {:induction false} DigitsShape(v: nat, base: nat)
    requires 2 <= base <= 36
    ensures forall i :: 0 <= i < |Digits(v, base)| ==>
                          DigitValue(Digits(v, base)[i]) < base && Digits(v, base)[i] !in "\0 \t\n\r+-"
    ensures forall i :: 0 <= i < |Digits(v, base)| ==> !IsSpace(Digits(v, base)[i])
    ensures Digits(v, base)[0] == '0' <==> v == 0
    ensures v == 0 ==> Digits(v, base) == "0"
  {
    DigitRoundTrip(Rem(v, base));
    if Quot(v, base) != 0 {
      DigitsShape(Quot(v, base), base);
    }
  }

  lemma SliceInit(s: seq<char>, i: nat, n: nat)
    requires n > 0 && i + n <= |s|
    ensures s[i..i + n - 1] == s[i..i + n][..n - 1]
  {
  }

  lemma DigitsInit(v: nat, base: nat)
    requires 2 <= base <= 36 && Quot(v, base) != 0
    ensures var ds := Digits(v, base);
            ds[..|ds| - 1] == Digits(Quot(v, base), base) && |ds| == |Digits(Quot(v, base), base)| + 1
  {
    hide Quot, Rem, DigitChar;
  }

  /** Scanning the numeral of `v` from `i` leaves the accumulator at `v`, wrapping or not. */
  lemma {:induction false} ScanDigitsOf(s: seq<char>, i: nat, v: nat, base: nat, unsigned: bool)
    requires 2 <= base <= 36 && Terminated(s) && v < TWO64
    requires i + |Digits(v, base)| < |s| && s[i..i + |Digits(v, base)|] == Digits(v, base)
    ensures Scan(s, i, base, 0, unsigned) == Scan(s, i + |Digits(v, base)|, base, v, unsigned)
  {
    hide Quot, Rem, DigitChar, DigitValue, Shift;
    var q, d := Quot(v, base), Rem(v, base);
    var n := |Digits(v, base)|;
    var c := s[i + n - 1];
    assert c == s[i..i + n][n - 1] == DigitChar(d);
    assert DigitValue(c) == d by { DigitRoundTrip(d); }
    if q != 0 {
      DigitsInit(v, base);
      SliceInit(s, i, n);
      ScanDigitsOf(s, i, q, base, unsigned);
    }
    ShiftExact(v, base, unsigned);
    assert Scan(s, i + n - 1, base, q, unsigned) == Scan(s, i + n, base, v, unsigned);
  }

  lemma ShiftExact(v: nat, base: nat, unsigned: bool)
    requires base >= 2 && v < TWO64
    ensures Shift(Quot(v, base), base, Rem(v, base), unsigned) == v
  {
    hide Quot, Rem;
    QuotRem(v, base);
  }

  /** Every 64-bit value is read back from its own numeral, in every base, up to the terminator. */
  lemma UnsignedRoundTrip(v: nat, base: nat)
    requires 2 <= base <= 36 && v < TWO64
    ensures var s := Digits(v, base) + ['\0'];
            Terminated(s) && ParseUnsigned(s, base) == Parsed(v, |Digits(v, base)|)
  {
    hide Quot, Rem, DigitChar, DigitValue, Digits, Shift;
    var ds := Digits(v, base);
    var s := ds + ['\0'];
    DigitsShape(v, base);
    assert s[0..|ds|] == ds && s[0] == ds[0];
    ScanDigitsOf(s, 0, v, base, true);
  }

  /** Detecting the base reads a decimal numeral back too, but does not move past a lone zero. */
  lemma DetectedRoundTrip(v: nat)
    requires v < TWO64
    ensures var s := Digits(v, 10) + ['\0'];
            && Terminated(s) && ParseUnsigned(s, 0).value == v
            && (ParseUnsigned(s, 0).end == |Digits(v, 10)| <==> v != 0)
  {
    hide Quot, Rem, DigitChar, DigitValue, Digits, Shift;
    var ds := Digits(v, 10);
    var s := ds + ['\0'];
    DigitsShape(v, 10);
    assert s[0..|ds|] == ds && s[0] == ds[0];
    ScanDigitsOf(s, 0, v, 10, true);
  }

  /** A hexadecimal numeral behind `0x` is read back in base sixteen and when the base is detected. */
  lemma HexRoundTrip(v: nat, base: int)
    requires v < TWO64 && (base == 0 || base == 16)
    ensures var s := "0x" + Digits(v, 16) + ['\0'];
            Terminated(s) && ParseUnsigned(s, base) == Parsed(v, |Digits(v, 16)| + 2)
  {
    hide Quot, Rem, DigitChar, DigitValue, Digits, Shift;
    var ds := Digits(v, 16);
    var s := "0x" + ds + ['\0'];
    DigitsShape(v, 16);
    assert s[2..2 + |ds|] == ds;
    ScanDigitsOf(s, 2, v, 16, true);
  }

  /** Without wrapping the accumulator only grows, so no value on the way exceeds the one read. */
  lemma {:induction false} ScanGrows(s: seq<char>, i: nat, base: int, acc: nat)
    requires i < |s| && Terminated(s)
    ensures acc <= Scan(s, i, base, acc, false).value
    decreases |s| - i
  {
    var d := DigitValue(s[i]);
    if !(s[i] == '\0' || d == 36 || d >= base) {
      assert acc * base >= acc;
      ScanGrows(s, i + 1, base, Shift(acc, base, d, false));
    }
  }

  /**
   `strtol` reads back what `itoa_signed` printed, up to the terminator, if and only if the value
   is not negative or the base is ten.  Otherwise it is handed the two's complement, which is no
   `long`; where it reads the value back, nothing on the way exceeds it.
   */
  lemma SignedRoundTripIff(v: int, base: nat)
    requires 2 <= base <= 36 && Printable(v, base)
    ensures var s := SignedNumeral(v, base) + ['\0'];
            && Terminated(s)
            && ParseSigned(s, base) == Parsed(if v < 0 && base != 10 then v + TWO64 else v, |SignedNumeral(v, base)|)
            && (ParseSigned(s, base).value == v <==> v >= 0 || base == 10)
            && (ParseSigned(s, base).value < TWO63 <==> v >= 0 || base == 10)
  {
    hide Quot, Rem, DigitChar, DigitValue, Digits, Shift;
    var m := Magnitude(v, base);
    var ds := Digits(m, base);
    var s := SignedNumeral(v, base) + ['\0'];
    var k := if v < 0 && base == 10 then 1 else 0;
    DigitsShape(m, base);
    assert s[k..k + |ds|] == ds && s[k] == ds[0];
    ScanDigitsOf(s, k, m, base, false);
  }

  // ---- what is read, for every string ----------------------------------------------

  /** The digit characters, in either case. */
  const LOWER := "0123456789abcdefghijklmnopqrstuvwxyz"
  const UPPER := "0123456789ABCDEFGHIJKLMNOPQRSTUVWXYZ"

  /** Character `c` is the digit `d` of a base above `d`. */
  ghost predicate IsDigit(c: char, d: nat)
  {
    d < 36 && (c == LOWER[d] || c == UPPER[d])
  }

  lemma DigitValueIff(c: char, d: nat)
    requires d < 36
    ensures DigitValue(c) == d <==> IsDigit(c, d)
  {
    LowerUpper(d);
  }

  lemma LowerUpper(d: nat)
    requires d < 36
    ensures d < 10 ==> LOWER[d] == UPPER[d] == '0' + d as char
    ensures d >= 10 ==> LOWER[d] == 'a' + (d - 10) as char && UPPER[d] == 'A' + (d - 10) as char
  {
  }

  /** The printers write the lower-case digits. */
  lemma {:induction false} DigitsAreLower(v: nat, base: nat, i: nat)
    requires 2 <= base <= 36 && i < |Digits(v, base)|
    ensures exists d :: 0 <= d < base && Digits(v, base)[i] == LOWER[d]
  {
    var d := Rem(v, base);
    LowerUpper(d);
    if i < |Digits(v, base)| - 1 {
      DigitsAreLower(Quot(v, base), base, i);
    } else {
      assert Digits(v, base)[i] == LOWER[d];
    }
  }

  ghost predicate IsDigitOf(c: char, base: int)
  {
    exists d :: 0 <= d < base && IsDigit(c, d)
  }

  lemma DigitBelowIff(c: char, base: int)
    ensures DigitValue(c) < 36 && DigitValue(c) < base <==> IsDigitOf(c, base)
    ensures IsDigitOf(c, base) ==> c != '\0'
  {
    var d := DigitValue(c);
    if d < 36 { DigitValueIff(c, d); }
    if IsDigitOf(c, base) {
      var e :| 0 <= e < base && IsDigit(c, e);
      DigitValueIff(c, e);
      LowerUpper(e);
    }
  }

  /** The number a string of digits stands for. */
  ghost function Value(ds: seq<char>, base: int): int
  {
    if ds == [] then 0 else Value(ds[..|ds| - 1], base) * base + DigitValue(ds[|ds| - 1])
  }

  /** What is left of it in `unsigned long`, or in a `long` without bounds. */
  ghost function Kept(v: int, unsigned: bool): int
  {
    if unsigned then v % TWO64 else v
  }

  lemma KeptShift(v: nat, base: nat, d: nat, unsigned: bool)
    ensures 0 <= Kept(v, unsigned)
    ensures Kept(v * base + d, unsigned) == Shift(Kept(v, unsigned), base, d, unsigned)
  {
    if unsigned {
      var q, r := v / TWO64, v % TWO64;
      assert v == TWO64 * q + r;
      Distributes(q, r, base);
      DropMultiple(q * base, r * base + d);
    }
  }

  lemma Distributes(q: nat, r: nat, base: nat)
    ensures (TWO64 * q + r) * base == TWO64 * (q * base) + r * base
  {
  }

  lemma DropMultiple(k: nat, x: nat)
    ensures (TWO64 * k + x) % TWO64 == x % TWO64
  {
  }

  /** Scanning `n` digits leaves the scan behind them with their value. */
  lemma {:induction false} ScanPasses(s: seq<char>, i: nat, n: nat, base: int, unsigned: bool)
    requires Terminated(s) && i + n < |s| && forall j :: i <= j < i + n ==> IsDigitOf(s[j], base)
    ensures Value(s[i..i + n], base) >= 0 && Kept(Value(s[i..i + n], base), unsigned) >= 0
    ensures Scan(s, i, base, 0, unsigned) == Scan(s, i + n, base, Kept(Value(s[i..i + n], base), unsigned), unsigned)
    decreases n
  {
    hide Scan, Value, Kept, Shift, DigitValue, IsDigitOf, Terminated;
    if n == 0 {
      assert s[i..i] == [];
      KeptNone(base, unsigned);
    } else {
      ScanPasses(s, i, n - 1, base, unsigned);
      InnerDigit(s, i + n - 1, base);
      ScanStep(s, i + n - 1, base, Kept(Value(s[i..i + n - 1], base), unsigned), unsigned);
      KeptStep(s, i, n, base, unsigned);
    }
  }

  lemma KeptNone(base: int, unsigned: bool)
    ensures Value([], base) == 0 && Kept(0, unsigned) == 0
  {
  }

  lemma KeptStep(s: seq<char>, i: nat, n: nat, base: nat, unsigned: bool)
    requires n > 0 && i + n <= |s| && Value(s[i..i + n - 1], base) >= 0
    ensures Value(s[i..i + n], base) >= 0
    ensures Kept(Value(s[i..i + n - 1], base), unsigned) >= 0 && Kept(Value(s[i..i + n], base), unsigned) >= 0
    ensures Kept(Value(s[i..i + n], base), unsigned) ==
            Shift(Kept(Value(s[i..i + n - 1], base), unsigned), base, DigitValue(s[i + n - 1]), unsigned)
  {
    hide Kept, Shift, Value;
    var v, d := Value(s[i..i + n - 1], base), DigitValue(s[i + n - 1]);
    ValueStep(s, i, n, base);
    KeptShift(v, base, d, unsigned);
    OneMoreDigit(v, base, d, unsigned);
  }

  lemma InnerDigit(s: seq<char>, k: nat, base: int)
    requires Terminated(s) && k < |s| && IsDigitOf(s[k], base)
    ensures k < |s| - 1 && base > 0
  {
    DigitBelowIff(s[k], base);
  }

  lemma OneMoreDigit(v: nat, base: nat, d: nat, unsigned: bool)
    ensures v * base + d >= 0 && Kept(v * base + d, unsigned) >= 0
  {
  }

  lemma ValueStep(s: seq<char>, i: nat, n: nat, base: int)
    requires n > 0 && i + n <= |s|
    ensures Value(s[i..i + n], base) == Value(s[i..i + n - 1], base) * base + DigitValue(s[i + n - 1])
  {
    SliceInit(s, i, n);
  }

  lemma ScanStep(s: seq<char>, i: nat, base: int, acc: nat, unsigned: bool)
    requires Terminated(s) && i < |s| - 1 && IsDigitOf(s[i], base)
    ensures base > 0
    ensures Scan(s, i, base, acc, unsigned) ==
            Scan(s, i + 1, base, Shift(acc, base, DigitValue(s[i]), unsigned), unsigned)
  {
    DigitBelowIff(s[i], base);
  }

  lemma ScanEnds(s: seq<char>, i: nat, base: int, acc: nat, unsigned: bool)
    requires Terminated(s) && i < |s| && !IsDigitOf(s[i], base)
    ensures Scan(s, i, base, acc, unsigned) == Scanned(acc, i)
  {
    DigitBelowIff(s[i], base);
  }

  ghost predicate White(c: char)
  {
    c in " \t\n\r" || c as int == 11 || c as int == 12
  }

  lemma {:induction false} SkipsTo(s: seq<char>, i: nat, n: nat)
    requires Terminated(s) && i <= n < |s| && !White(s[n]) && forall j :: i <= j < n ==> White(s[j])
    ensures SkipSpaces(s, i) == n
    decreases n - i
  {
    if i < n { SkipsTo(s, i + 1, n); }
  }

  /** The prefix of a numeral in base `base` that is followed by `tail`, and the base of the digits there. */
  ghost predicate Begins(prefix: seq<char>, tail: seq<char>, base: int, b: int)
    requires tail != []
  {
    if prefix == "0x" || prefix == "0X" then (base == 0 || base == 16) && b == 16
    else if prefix == "0" then base == 0 && b == 8 && tail[0] != 'x' && tail[0] != 'X'
    else
      && prefix == ""
      && (base == 0 ==> tail[0] != '0' && b == 10)
      && (base != 0 ==> b == base)
      && (base == 16 && tail[0] == '0' ==> |tail| > 1 && tail[1] != 'x' && tail[1] != 'X')
  }

  lemma PrefixOf(s: seq<char>, i: nat, prefix: seq<char>, tail: seq<char>, base: int, b: int)
    requires Terminated(s) && i < |s| && tail != [] && s[i..] == prefix + tail && Begins(prefix, tail, base, b)
    ensures Prefix(s, i, base) == Start(i + |prefix|, b)
  {
    assert s[i] == (prefix + tail)[0];
    if i + 1 < |s| { assert s[i + 1] == (prefix + tail)[1]; }
  }

  /** A string laid out as white space, sign, prefix, digits and a rest that no digit begins. */
  ghost predicate Laid(spaces: seq<char>, sign: seq<char>, prefix: seq<char>, ds: seq<char>, rest: seq<char>,
                       base: int, b: int, signed: bool)
  {
    && rest != [] && Terminated(spaces + sign + prefix + ds + rest)
    && (forall i :: 0 <= i < |spaces| ==> White(spaces[i]))
    && (sign == "" ==> var c := (prefix + ds + rest)[0]; !White(c) && c != '+' && (signed ==> c != '-'))
    && (sign == "" || sign == "+" || (signed && sign == "-"))
    && Begins(prefix, ds + rest, base, b)
    && (forall i :: 0 <= i < |ds| ==> IsDigitOf(ds[i], b)) && !IsDigitOf(rest[0], b)
  }

  lemma LaidScan(spaces: seq<char>, sign: seq<char>, prefix: seq<char>, ds: seq<char>, rest: seq<char>,
                 base: int, b: int, unsigned: bool)
    requires Laid(spaces, sign, prefix, ds, rest, base, b, !unsigned)
    ensures var s := spaces + sign + prefix + ds + rest;
            var i := |spaces| + |sign|;
            && SkipSpaces(s, 0) == |spaces|
            && (sign != "" ==> s[|spaces|] == sign[0])
            && (sign == "" ==> s[|spaces|] != '+' && (!unsigned ==> s[|spaces|] != '-'))
            && Prefix(s, i, base) == Start(i + |prefix|, b)
            && Kept(Value(ds, b), unsigned) >= 0
            && Scan(s, i + |prefix|, b, 0, unsigned) == Scanned(Kept(Value(ds, b), unsigned), |s| - |rest|)
  {
    hide Scan, Prefix, SkipSpaces, IsDigitOf, Begins, Value, Terminated, White;
    var s := spaces + sign + prefix + ds + rest;
    var i := |spaces| + |sign|;
    LaidPlaces(spaces, sign, prefix, ds, rest);
    SkipsTo(s, 0, |spaces|) by { LaidSkips(spaces, sign, prefix, ds, rest, base, b, !unsigned); }
    PrefixOf(s, i, prefix, ds + rest, base, b);
    ScanPasses(s, i + |prefix|, |ds|, b, unsigned);
    ScanEnds(s, |s| - |rest|, b, Kept(Value(ds, b), unsigned), unsigned);
  }

  lemma LaidPlaces(spaces: seq<char>, sign: seq<char>, prefix: seq<char>, ds: seq<char>, rest: seq<char>)
    requires rest != []
    ensures var s := spaces + sign + prefix + ds + rest;
            var i, k := |spaces| + |sign|, |spaces| + |sign| + |prefix|;
            && |s| == k + |ds| + |rest|
            && (forall j :: 0 <= j < |spaces| ==> s[j] == spaces[j])
            && s[|spaces|] == (if sign == "" then (prefix + ds + rest)[0] else sign[0])
            && s[i..] == prefix + (ds + rest)
            && s[k..k + |ds|] == ds && s[k + |ds|] == rest[0]
            && (forall j :: k <= j < k + |ds| ==> s[j] == ds[j - k])
  {
  }

  lemma LaidSkips(spaces: seq<char>, sign: seq<char>, prefix: seq<char>, ds: seq<char>, rest: seq<char>,
                  base: int, b: int, signed: bool)
    requires Laid(spaces, sign, prefix, ds, rest, base, b, signed)
    ensures var s := spaces + sign + prefix + ds + rest;
            !White(s[|spaces|]) && forall j :: 0 <= j < |spaces| ==> White(s[j])
  {
    LaidPlaces(spaces, sign, prefix, ds, rest);
  }

  /**
   What `strtoul` reads of every string: white space, an optional plus sign and the prefix are
   skipped, and the digits up to the first character that is none give their value modulo 2^64 and
   the end; without a digit the value is zero and the end the beginning of the string.
   */
  lemma ReadsUnsigned(spaces: seq<char>, sign: seq<char>, prefix: seq<char>, ds: seq<char>, rest: seq<char>,
                      base: int, b: int)
    requires Laid(spaces, sign, prefix, ds, rest, base, b, false)
    ensures var s := spaces + sign + prefix + ds + rest;
            ParseUnsigned(s, base) == Parsed(Value(ds, b) % TWO64, if ds == [] then 0 else |s| - |rest|)
  {
    hide Scan, Prefix, SkipSpaces, Value, Laid;
    LaidTerminated(spaces, sign, prefix, ds, rest, base, b, false);
    LaidScan(spaces, sign, prefix, ds, rest, base, b, true);
  }

  lemma LaidTerminated(spaces: seq<char>, sign: seq<char>, prefix: seq<char>, ds: seq<char>, rest: seq<char>,
                       base: int, b: int, signed: bool)
    requires Laid(spaces, sign, prefix, ds, rest, base, b, signed)
    ensures Terminated(spaces + sign + prefix + ds + rest) && rest != []
    ensures sign == "" || sign == "+" || (signed && sign == "-")
  {
  }

  /** The same of `strtol`, which takes a minus sign too, where nothing leaves the range of `long`. */
  lemma ReadsSigned(spaces: seq<char>, sign: seq<char>, prefix: seq<char>, ds: seq<char>, rest: seq<char>,
                    base: int, b: int)
    requires Laid(spaces, sign, prefix, ds, rest, base, b, true)
    ensures var s := spaces + sign + prefix + ds + rest;
            ParseSigned(s, base) ==
            Parsed(if sign == "-" then -Value(ds, b) else Value(ds, b), if ds == [] then 0 else |s| - |rest|)
  {
    hide Scan, Prefix, SkipSpaces, Value, Laid;
    LaidTerminated(spaces, sign, prefix, ds, rest, base, b, true);
    LaidScan(spaces, sign, prefix, ds, rest, base, b, false);
  }

  lemma {:induction false} DigitsRun(s: seq<char>, i: nat, base: int) returns (n: nat)
    requires Terminated(s) && i < |s|
    ensures i <= n < |s| && !IsDigitOf(s[n], base) && forall j :: i <= j < n ==> IsDigitOf(s[j], base)
    decreases |s| - i
  {
    if IsDigitOf(s[i], base) {
      InnerDigit(s, i, base);
      n := DigitsRun(s, i + 1, base);
    } else {
      n := i;
    }
  }

  lemma {:induction false} WhiteRun(s: seq<char>, i: nat) returns (n: nat)
    requires Terminated(s) && i < |s|
    ensures i <= n < |s| && !White(s[n]) && forall j :: i <= j < n ==> White(s[j])
    decreases |s| - i
  {
    if White(s[i]) { n := WhiteRun(s, i + 1); } else { n := i; }
  }

  /** Where the digits begin in a string from position `i` on, and in which base. */
  lemma PrefixRun(s: seq<char>, i: nat, base: int) returns (n: nat, b: int)
    requires Terminated(s) && i < |s|
    ensures i <= n < |s| && Begins(s[i..n], s[n..], base, b)
  {
    n, b := i, if base == 0 then 10 else base;
    if s[i] == '0' && (base == 0 || base == 16) {
      if s[i + 1] == 'x' || s[i + 1] == 'X' {
        n, b := i + 2, 16;
        assert s[i..n] == [s[i], s[i + 1]];
      } else if base == 0 {
        n, b := i + 1, 8;
        assert s[i..n] == "0";
      }
    }
  }

  /** Every string is laid out like this, so ReadsUnsigned and ReadsSigned speak of every string. */
  lemma EveryStringLaid(s: seq<char>, base: int, signed: bool)
    returns (spaces: seq<char>, sign: seq<char>, prefix: seq<char>, ds: seq<char>, rest: seq<char>, b: int)
    requires Terminated(s)
    ensures Laid(spaces, sign, prefix, ds, rest, base, b, signed) && s == spaces + sign + prefix + ds + rest
  {
    hide IsDigitOf, White, Begins, Terminated;
    SignEnds(s);
    var i := WhiteRun(s, 0);
    var j := if s[i] == '+' || (signed && s[i] == '-') then i + 1 else i;
    var k;
    k, b := PrefixRun(s, j, base);
    var n := DigitsRun(s, k, b);
    spaces, sign, prefix, ds, rest := s[..i], s[i..j], s[j..k], s[k..n], s[n..];
    CutIsLaid(s, i, j, k, n, base, b, signed);
    Cut(s, i, j, k, n);
    hide Laid;
  }

  lemma CutIsLaid(s: seq<char>, i: nat, j: nat, k: nat, n: nat, base: int, b: int, signed: bool)
    requires Terminated(s) && i <= j <= k <= n < |s| && !White(s[i]) && forall m :: 0 <= m < i ==> White(s[m])
    requires j == if s[i] == '+' || (signed && s[i] == '-') then i + 1 else i
    requires Begins(s[j..k], s[k..], base, b)
    requires !IsDigitOf(s[n], b) && forall m :: k <= m < n ==> IsDigitOf(s[m], b)
    ensures Laid(s[..i], s[i..j], s[j..k], s[k..n], s[n..], base, b, signed)
  {
    hide IsDigitOf, White, Begins, Terminated;
    Cut(s, i, j, k, n);
    CutPlaces(s, i, j, k, n);
  }

  lemma CutPlaces(s: seq<char>, i: nat, j: nat, k: nat, n: nat)
    requires i <= j <= k <= n < |s|
    ensures forall m :: 0 <= m < i ==> s[..i][m] == s[m]
    ensures forall m :: 0 <= m < n - k ==> s[k..n][m] == s[k + m]
    ensures s[n..] != [] && s[j..][0] == s[j] && s[n..][0] == s[n]
  {
  }

  lemma SignEnds(s: seq<char>)
    requires Terminated(s)
    ensures s != [] && forall i :: 0 <= i < |s| && (s[i] == '+' || s[i] == '-') ==> i + 1 < |s|
  {
  }

  lemma Cut(s: seq<char>, i: nat, j: nat, k: nat, n: nat)
    requires i <= j <= k <= n < |s|
    ensures s == s[..i] + s[i..j] + s[j..k] + s[k..n] + s[n..]
    ensures s[k..n] + s[n..] == s[k..] && s[j..k] + s[k..n] + s[n..] == s[j..]
    ensures j == i ==> s[i..j] == ""
    ensures j == i + 1 ==> s[i..j] == [s[i]]
  {
  }

  /** An octal numeral behind a `0` is read back when the base is detected. */
  lemma OctalRoundTrip(v: nat)
    requires v < TWO64
    ensures var s := "0" + Digits(v, 8) + ['\0'];
            Terminated(s) && ParseUnsigned(s, 0) == Parsed(v, |Digits(v, 8)| + 1)
  {
    hide Quot, Rem, DigitChar, Digits, Shift;
    var ds := Digits(v, 8);
    var s := "0" + ds + ['\0'];
    DigitsShape(v, 8);
    assert s[1..1 + |ds|] == ds && s[1] == ds[0];
    ScanDigitsOf(s, 1, v, 8, true);
  }
}

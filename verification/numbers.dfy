/**
 * Decimal text to integers the way the daemon's C library does it: `strtol`'s
 * reading of a leading integer, and `atoi` as glibc builds it on `strtol`
 * (saturate to a 64-bit `long`, then keep the low 32 bits as an `int`).
 * `Decimal` renders an integer back to text and is the inverse used in the proofs.
 */
module Numbers {

  const INT_MIN: int := -0x8000_0000
  const INT_MAX: int := 0x7FFF_FFFF
  const LONG_MIN: int := -0x8000_0000_0000_0000
  const LONG_MAX: int := 0x7FFF_FFFF_FFFF_FFFF

  /** `isspace` in the C locale. */
  predicate IsSpace(c: char) {
    c == ' ' || c == '\t' || c == '\n' || c == '\U{0B}' || c == '\U{0C}' || c == '\r'
  }

  predicate IsDigit(c: char) {
    '0' <= c <= '9'
  }

  predicate AllDigits(s: string) {
    forall j :: 0 <= j < |s| ==> IsDigit(s[j])
  }

  predicate AllSpaces(s: string) {
    forall j :: 0 <= j < |s| ==> IsSpace(s[j])
  }

  function DigitVal(c: char): (d: nat)
    requires IsDigit(c)
    ensures d < 10
  {
    c as int - '0' as int
  }

  function DigitChar(d: nat): (c: char)
    requires d < 10
    ensures IsDigit(c) && DigitVal(c) == d
  {
    ('0' as int + d) as char
  }

  /** First position at or after `i` that is not white space. */
  function SkipSpaces(s: string, i: nat): (k: nat)
    requires i <= |s|
    ensures i <= k <= |s|
    ensures forall j :: i <= j < k ==> IsSpace(s[j])
    ensures k == |s| || !IsSpace(s[k])
    decreases |s| - i
  {
    if i == |s| || !IsSpace(s[i]) then i else SkipSpaces(s, i + 1)
  }

  /** End of the run of decimal digits that starts at `i`. */
  function DigitsEnd(s: string, i: nat): (k: nat)
    requires i <= |s|
    ensures i <= k <= |s|
    ensures forall j :: i <= j < k ==> IsDigit(s[j])
    ensures k == |s| || !IsDigit(s[k])
    decreases |s| - i
  {
    if i == |s| || !IsDigit(s[i]) then i else DigitsEnd(s, i + 1)
  }

  /** The value of a digit string, most significant digit first. */
  function DigitsValue(d: string): nat
    requires AllDigits(d)
  {
    if d == [] then 0 else DigitsValue(d[..|d| - 1]) * 10 + DigitVal(d[|d| - 1])
  }

  /**
   * The integer `strtol(s, NULL, 10)` reads before any range check: optional white
   * space, an optional sign, then the longest run of digits; 0 when there are none.
   */
  function LeadingInt(s: string): int {
    var i := SkipSpaces(s, 0);
    var signed := i < |s| && (s[i] == '-' || s[i] == '+');
    var j := if signed then i + 1 else i;
    var k := DigitsEnd(s, j);
    var magnitude: int := DigitsValue(s[j..k]);
    if signed && s[i] == '-' then -magnitude else magnitude
  }

  /** `strtol` saturates out-of-range values at the bounds of `long`. */
  function ClampLong(v: int): (r: int)
    ensures LONG_MIN <= r <= LONG_MAX
    ensures LONG_MIN <= v <= LONG_MAX ==> r == v
  {
    if v < LONG_MIN then LONG_MIN else if v > LONG_MAX then LONG_MAX else v
  }

  /** The conversion of a `long` to a 32-bit `int`: keep the low 32 bits, two's complement. */
  function WrapInt(v: int): (r: int)
    ensures INT_MIN <= r <= INT_MAX
    ensures (v - r) % 0x1_0000_0000 == 0
    ensures INT_MIN <= v <= INT_MAX ==> r == v
  {
    var m := v % 0x1_0000_0000;
    if m > INT_MAX then m - 0x1_0000_0000 else m
  }

  /** glibc's `atoi(s)`, which is `(int) strtol(s, NULL, 10)`. */
  function Atoi(s: string): (r: int)
    ensures INT_MIN <= r <= INT_MAX
    ensures INT_MIN <= LeadingInt(s) <= INT_MAX ==> r == LeadingInt(s)
    ensures (ClampLong(LeadingInt(s)) - r) % 0x1_0000_0000 == 0
  {
    WrapInt(ClampLong(LeadingInt(s)))
  }

  /** Decimal digits of a natural number, most significant first, no leading zeros. */
  function Digits(n: nat): (s: string)
    ensures s != [] && AllDigits(s)
    decreases n
  {
    if n < 10 then [DigitChar(n)] else Digits(n / 10) + [DigitChar(n % 10)]
  }

  /** `printf("%d", n)`. */
  function Decimal(n: int): string {
    if n < 0 then "-" + Digits(-n) else Digits(n)
  }

  lemma {:induction false} DigitsValueOfDigits(n: nat)
    ensures DigitsValue(Digits(n)) == n
    decreases n
  {
    var d := Digits(n);
    if n >= 10 {
      assert d[..|d| - 1] == Digits(n / 10);
      DigitsValueOfDigits(n / 10);
    }
  }

  /**
   * Reading back what `Decimal` wrote: white space before the number and any
   * non-digit after it do not change the value.
   */
  lemma LeadingIntOfDecimal(pad: string, n: int, rest: string)
    requires AllSpaces(pad)
    requires rest == [] || !IsDigit(rest[0])
    ensures LeadingInt(pad + Decimal(n) + rest) == n
  {
    var m: nat := if n < 0 then -n else n;
    var sign := if n < 0 then "-" else "";
    assert Decimal(n) == sign + Digits(m);
    LeadingIntOfParts(pad, sign, Digits(m), rest);
    DigitsValueOfDigits(m);
  }

  /** Blanks, an optional minus sign, a run of digits and a non-digit read as the signed run. */
  lemma LeadingIntOfParts(pad: string, sign: string, ds: string, rest: string)
    requires AllSpaces(pad)
    requires sign == "-" || sign == ""
    requires ds != [] && AllDigits(ds)
    requires rest == [] || !IsDigit(rest[0])
    ensures LeadingInt(pad + (sign + ds) + rest) == if sign == "-" then -(DigitsValue(ds) as int) else DigitsValue(ds)
  {
    var s := pad + (sign + ds) + rest;
    var t := sign + ds + rest;
    PartsLayout(pad, sign, ds, rest);
    assert t[0] == (if sign == "-" then '-' else ds[0]);
    SkipPad(pad, t);
    DigitsRun(s, |pad| + |sign|, ds);
    LeadingIntAt(s, |pad|, sign == "-", ds);
  }

  /** Where the parts of `pad + (sign + ds) + rest` sit. */
  lemma PartsLayout(pad: string, sign: string, ds: string, rest: string)
    ensures var s := pad + (sign + ds) + rest;
            && s == pad + (sign + ds + rest)
            && s[|pad| + |sign|..|pad| + |sign| + |ds|] == ds
            && (rest != [] ==> s[|pad| + |sign| + |ds|] == rest[0])
  {
    var s := pad + (sign + ds) + rest;
    assert s == (pad + sign) + ds + rest;
    Middle(pad + sign, ds, rest);
  }

  /** `LeadingInt` once the scan positions are known: blanks end at `i`, then a sign or not, then `ds`. */
  lemma LeadingIntAt(s: string, i: nat, neg: bool, ds: string)
    requires SkipSpaces(s, 0) == i < |s|
    requires neg ==> s[i] == '-'
    requires !neg ==> IsDigit(s[i])
    requires AllDigits(ds)
    requires var j := if neg then i + 1 else i;
             j + |ds| <= |s| && s[j..j + |ds|] == ds && DigitsEnd(s, j) == j + |ds|
    ensures LeadingInt(s) == if neg then -(DigitsValue(ds) as int) else DigitsValue(ds)
  {
  }

  lemma Middle(a: string, b: string, c: string)
    ensures (a + b + c)[|a|..|a| + |b|] == b
    ensures c != [] ==> (a + b + c)[|a| + |b|] == c[0]
  {
  }

  /** Blanks in front of a non-blank character are skipped exactly. */
  lemma SkipPad(pad: string, t: string)
    requires AllSpaces(pad)
    requires t != [] && !IsSpace(t[0])
    ensures SkipSpaces(pad + t, 0) == |pad|
  {
    var s := pad + t;
    var k := SkipSpaces(s, 0);
    assert s[|pad|] == t[0];
  }

  /** The digit run of `s` at `j` is `ds` when `ds` sits there and no digit follows it. */
  lemma DigitsRun(s: string, j: nat, ds: string)
    requires AllDigits(ds)
    requires j + |ds| <= |s| && s[j..j + |ds|] == ds
    requires j + |ds| == |s| || !IsDigit(s[j + |ds|])
    ensures DigitsEnd(s, j) == j + |ds|
  {
    var k := DigitsEnd(s, j);
  }

  lemma AtoiOfDecimal(n: int)
    requires INT_MIN <= n <= INT_MAX
    ensures Atoi(Decimal(n)) == n
  {
    LeadingIntOfDecimal("", n, "");
    assert "" + Decimal(n) + "" == Decimal(n);
  }
}

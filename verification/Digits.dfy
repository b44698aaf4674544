/** Numerals: what the code parses and prints, in base 10 and base 16. */
module Digits {
  import opened Bits
  import opened Strings
  import opened Wrappers

  predicate IsDec(c: char) { '0' <= c <= '9' }

  predicate IsHex(c: char) { IsDec(c) || 'a' <= c <= 'f' || 'A' <= c <= 'F' }

  function DigitValue(c: char): (d: nat)
    requires IsHex(c)
    ensures d < 16 && (IsDec(c) ==> d < 10)
  {
    if IsDec(c) then c as int - '0' as int
    else if 'a' <= c <= 'f' then c as int - 'a' as int + 10
    else c as int - 'A' as int + 10
  }

  function DigitChar(d: nat): (c: char)
    requires d < 16
    ensures IsHex(c) && DigitValue(c) == d && (d < 10 ==> IsDec(c))
  {
    if d < 10 then ('0' as int + d) as char else ('a' as int + d - 10) as char
  }

  predicate AllDec(s: string) { forall i :: 0 <= i < |s| ==> IsDec(s[i]) }

  predicate AllHex(s: string) { forall i :: 0 <= i < |s| ==> IsHex(s[i]) }

  /** The number a digit string denotes. */
  function Value(s: string, base: nat): nat
    requires AllHex(s)
  {
    if s == "" then 0 else Value(s[..|s|-1], base) * base + DigitValue(s[|s|-1])
  }

  /** Quotient and remainder by one of the two bases. */
  function Quotient(n: nat, base: nat): (q: nat)
    requires base == 10 || base == 16
    ensures q <= n && (n >= base ==> q < n)
  {
    if base == 10 then n / 10 else n / 16
  }

  function Remainder(n: nat, base: nat): (r: nat)
    requires base == 10 || base == 16
    ensures r < base
  {
    if base == 10 then n % 10 else n % 16
  }

  /** `String(n)` and `n.toString(16)`. */
  function Numeral(n: nat, base: nat): (s: string)
    requires base == 10 || base == 16
    ensures AllHex(s) && |s| >= 1 && (base == 10 ==> AllDec(s))
  {
    if n < base then [DigitChar(n)] else Numeral(Quotient(n, base), base) + [DigitChar(Remainder(n, base))]
  }

  lemma {:induction false} ValueOfNumeral(n: nat, base: nat)
    requires base == 10 || base == 16
    ensures Value(Numeral(n, base), base) == n
    decreases n
  {
    var s := Numeral(n, base);
    if n < base {
      assert s[..0] == "";
    } else {
      ValueOfNumeral(Quotient(n, base), base);
      assert s[..|s|-1] == Numeral(Quotient(n, base), base);
    }
  }

  /** Bytes print with at most three digits, hextets with at most four. */
  lemma NumeralShort(n: nat)
    ensures n < 256 ==> |Numeral(n, 10)| <= 3
    ensures n < 0x10000 ==> |Numeral(n, 16)| <= 4
  {
    if n < 256 {
      assert n / 10 < 26 && n / 10 / 10 < 10;
      assert |Numeral(n / 10 / 10, 10)| == 1;
      assert |Numeral(n / 10, 10)| <= 2;
    }
    if n < 0x10000 {
      assert n / 16 < 0x1000 && n / 16 / 16 < 0x100 && n / 16 / 16 / 16 < 0x10;
      assert |Numeral(n / 16 / 16 / 16, 16)| == 1;
      assert |Numeral(n / 16 / 16, 16)| <= 2;
      assert |Numeral(n / 16, 16)| <= 3;
    }
  }

  lemma LowerHex(s: string)
    requires AllHex(s)
    ensures AllHex(Lower(s)) && forall base :: Value(Lower(s), base) == Value(s, base)
  {
    if s != "" {
      LowerHex(s[..|s|-1]);
      assert Lower(s)[..|s|-1] == Lower(s[..|s|-1]);
    }
  }

  /** `Number` on what reaches it: digit strings, and the empty string, which gives 0. */
  function NumberOf(s: string): Option<nat> {
    if AllDec(s) then Some(Value(s, 10)) else None
  }

  /** The digits at the front. */
  function HexPrefix(s: string): (p: string)
    ensures AllHex(p)
  {
    if s == "" || !IsHex(s[0]) then "" else [s[0]] + HexPrefix(s[1..])
  }

  /** `parseInt(s, 16)`: leading white space, one sign, an optional 0x, then as many digits
      as there are; None stands for NaN. */
  function ParseInt16(s: string): Option<int> {
    var t := TrimStart(s);
    var negative := t != "" && t[0] == '-';
    var u := if t != "" && (t[0] == '-' || t[0] == '+') then t[1..] else t;
    var v := if |u| >= 2 && u[0] == '0' && (u[1] == 'x' || u[1] == 'X') then u[2..] else u;
    var digits := HexPrefix(v);
    if digits == "" then None else Some(if negative then -(Value(digits, 16) as int) else Value(digits, 16))
  }

  lemma {:induction false} HexPrefixAll(s: string)
    requires AllHex(s)
    ensures HexPrefix(s) == s
  {
    if s != "" {
      HexPrefixAll(s[1..]);
      assert [s[0]] + s[1..] == s;
    }
  }

  lemma ParseHex(s: string)
    requires AllHex(s) && s != ""
    ensures ParseInt16(s) == Some(Value(s, 16))
  {
    assert !IsSpace(s[0]);
    HexPrefixAll(s);
  }

  lemma Pow2Of8()
    ensures Pow2(8) == 256
  {
    assert Pow2(4) == 16;
    assert Pow2(6) == 64;
  }

  /** `(a << 8) | b`. */
  lemma JoinBytes(a: nat, b: nat)
    requires b < 256
    ensures BitOr(ShiftLeft(a, 8), b) == a * 256 + b
  {
    Pow2Of8();
    OrDisjoint(a, b, 8);
  }

  lemma LowByte(n: nat)
    ensures BitAnd(n, 0xff) == n % 256
  {
    Pow2Of8();
    AndLowMask(n, 8);
  }

  lemma HighByte(n: nat)
    ensures ShiftRight(n, 8) == n / 256
  {
    Pow2Of8();
  }

  lemma BytesOf(a: nat, b: nat, n: nat)
    requires a < 256 && b < 256 && n == a * 256 + b
    ensures n / 256 == a && n % 256 == b && a % 256 == a
  {}

  /** `(n >> 8) & 0xff` and `n & 0xff`. */
  lemma SplitHextet(a: nat, b: nat, n: nat)
    requires a < 256 && b < 256 && n == a * 256 + b
    ensures BitAnd(ShiftRight(n, 8), 0xff) == a && BitAnd(n, 0xff) == b
  {
    BytesOf(a, b, n);
    HighByte(n);
    LowByte(n);
    LowByte(a);
  }
}

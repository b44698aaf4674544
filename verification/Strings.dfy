/** The string operations the parsers use, on sequences of characters. Case folding is that of
    ASCII letters. */
module Strings {

  function LowerChar(c: char): char {
    if 'A' <= c <= 'Z' then (c as int + 32) as char else c
  }

  function Lower(s: string): (r: string)
    ensures |r| == |s| && forall i :: 0 <= i < |s| ==> r[i] == LowerChar(s[i])
  {
    seq(|s|, i requires 0 <= i < |s| => LowerChar(s[i]))
  }

  lemma LowerConcat(a: string, b: string)
    ensures Lower(a + b) == Lower(a) + Lower(b)
  {}

  lemma LowerSame(s: string)
    requires forall i :: 0 <= i < |s| ==> !('A' <= s[i] <= 'Z')
    ensures Lower(s) == s
  {}

  /** The same character, or the two cases of one letter. */
  predicate SameLetter(c: char, d: char) {
    || c == d
    || ('A' <= c <= 'Z' && d as int == c as int + 32)
    || ('A' <= d <= 'Z' && c as int == d as int + 32)
  }

  predicate SameText(a: string, b: string) {
    |a| == |b| && forall i :: 0 <= i < |a| ==> SameLetter(a[i], b[i])
  }

  /** Folding identifies exactly what differs in the case of letters. */
  lemma LowerIff(a: string, b: string)
    ensures Lower(a) == Lower(b) <==> SameText(a, b)
  {
    if SameText(a, b) {
      forall i | 0 <= i < |a| ensures LowerChar(a[i]) == LowerChar(b[i]) { assert SameLetter(a[i], b[i]); }
      assert Lower(a) == Lower(b);
    }
    if Lower(a) == Lower(b) {
      forall i | 0 <= i < |a| ensures SameLetter(a[i], b[i]) {
        assert Lower(a)[i] == Lower(b)[i];
      }
    }
  }

  /** The ECMAScript WhiteSpace and LineTerminator code units, which both `\\s` and `trim` use. */
  predicate IsSpaceCode(n: int) {
    9 <= n <= 13 || n == 0x20 || n == 0xa0 || n == 0x1680 || 0x2000 <= n <= 0x200a
    || n == 0x2028 || n == 0x2029 || n == 0x202f || n == 0x205f || n == 0x3000 || n == 0xfeff
  }

  /** Code by code. */
  lemma SpaceCodes(n: int)
    ensures IsSpaceCode(n) <==>
            n in {0x9, 0xa, 0xb, 0xc, 0xd, 0x20, 0xa0, 0x1680, 0x2000, 0x2001, 0x2002, 0x2003, 0x2004, 0x2005, 0x2006,
                  0x2007, 0x2008, 0x2009, 0x200a, 0x2028, 0x2029, 0x202f, 0x205f, 0x3000, 0xfeff}
  {}

  predicate IsSpace(c: char) {
    IsSpaceCode(c as int)
  }

  function TrimStart(s: string): string {
    if s != "" && IsSpace(s[0]) then TrimStart(s[1..]) else s
  }

  function TrimEnd(s: string): string {
    if s != "" && IsSpace(s[|s|-1]) then TrimEnd(s[..|s|-1]) else s
  }

  function Trim(s: string): string {
    TrimEnd(TrimStart(s))
  }

  /** Neither end is white space. */
  predicate Trimmed(s: string) {
    s == "" || (!IsSpace(s[0]) && !IsSpace(s[|s|-1]))
  }

  lemma TrimTrimmed(s: string)
    requires Trimmed(s)
    ensures Trim(s) == s && TrimStart(s) == s && TrimEnd(s) == s
  {}

  /** `split` on one character. */
  function Split(s: string, sep: char): (parts: seq<string>)
    ensures |parts| >= 1
  {
    if s == "" then [""]
    else
      var rest := Split(s[1..], sep);
      if s[0] == sep then [""] + rest else [[s[0]] + rest[0]] + rest[1..]
  }

  function Join(parts: seq<string>, sep: char): string
    requires |parts| >= 1
  {
    if |parts| == 1 then parts[0] else parts[0] + [sep] + Join(parts[1..], sep)
  }

  lemma {:induction false} SplitNone(s: string, sep: char)
    requires sep !in s
    ensures Split(s, sep) == [s]
  {
    if s != "" {
      SplitNone(s[1..], sep);
      assert [s[0]] + s[1..] == s;
    }
  }

  lemma {:induction false} SplitFirst(a: string, sep: char, b: string)
    requires sep !in a
    ensures Split(a + [sep] + b, sep) == [a] + Split(b, sep)
  {
    var s := a + [sep] + b;
    if a == "" {
      assert s[1..] == b;
    } else {
      assert s[1..] == a[1..] + [sep] + b;
      SplitFirst(a[1..], sep, b);
      assert ([a[1..]] + Split(b, sep))[1..] == Split(b, sep);
      assert [s[0]] + a[1..] == a;
    }
  }

  /** The parts after one more character in front. */
  ghost function Grow(c: char, sep: char, rest: seq<string>): seq<string>
    requires |rest| >= 1
  {
    if c == sep then [""] + rest else [[c] + rest[0]] + rest[1..]
  }

  lemma SplitGrows(s: string, sep: char)
    requires s != ""
    ensures Split(s, sep) == Grow(s[0], sep, Split(s[1..], sep))
  {}

  lemma Grown(c: char, sep: char, rest: seq<string>, more: seq<string>)
    requires |rest| >= 1
    ensures Grow(c, sep, rest + more) == Grow(c, sep, rest) + more
  {
    assert (rest + more)[1..] == rest[1..] + more;
  }

  /** Splitting on either side of a separator. */
  lemma {:induction false} SplitConcat(a: string, sep: char, b: string)
    ensures Split(a + [sep] + b, sep) == Split(a, sep) + Split(b, sep)
  {
    var s := a + [sep] + b;
    if a == "" {
      assert s[1..] == b;
    } else {
      assert s[1..] == a[1..] + [sep] + b;
      SplitConcat(a[1..], sep, b);
      SplitGrows(s, sep);
      SplitGrows(a, sep);
      Grown(s[0], sep, Split(a[1..], sep), Split(b, sep));
    }
  }

  /** Splitting undoes joining parts that do not hold the separator. */
  lemma {:induction false} SplitJoin(parts: seq<string>, sep: char)
    requires |parts| >= 1 && forall p :: p in parts ==> sep !in p
    ensures Split(Join(parts, sep), sep) == parts
  {
    if |parts| == 1 {
      SplitNone(parts[0], sep);
    } else {
      SplitJoin(parts[1..], sep);
      SplitFirst(parts[0], sep, Join(parts[1..], sep));
    }
  }

  lemma {:induction false} JoinAppend(a: seq<string>, b: seq<string>, sep: char)
    requires |a| >= 1 && |b| >= 1
    ensures Join(a + b, sep) == Join(a, sep) + [sep] + Join(b, sep)
    decreases |a|
  {
    if |a| == 1 {
      assert (a + b)[1..] == b;
    } else {
      assert (a + b)[1..] == a[1..] + b;
      JoinAppend(a[1..], b, sep);
      assert a[0] + [sep] + (Join(a[1..], sep) + [sep] + Join(b, sep)) ==
        a[0] + [sep] + Join(a[1..], sep) + [sep] + Join(b, sep);
    }
  }

  /** The position of a character, or the length if it does not occur. */
  function IndexOf(s: string, c: char): (i: nat)
    ensures i <= |s| && (i < |s| ==> s[i] == c) && forall j :: 0 <= j < i ==> s[j] != c
  {
    if s == "" || s[0] == c then 0 else 1 + IndexOf(s[1..], c)
  }

  /** Ignores case, as the searches do. */
  predicate ContainsIgnoringCase(s: string, part: string) {
    exists i :: 0 <= i <= |s| - |part| && FoldedAt(s, part, i)
  }

  predicate FoldedAt(s: string, part: string, i: int)
    requires 0 <= i <= |s| - |part|
  {
    Lower(s[i..i + |part|]) == Lower(part)
  }

  predicate SameAt(s: string, part: string, i: int)
    requires 0 <= i <= |s| - |part|
  {
    SameText(s[i..i + |part|], part)
  }

  /** A search finds a text exactly if some stretch of it differs from the searched one in the
      case of letters only. */
  lemma ContainsIff(s: string, part: string)
    ensures ContainsIgnoringCase(s, part) <==> exists i :: 0 <= i <= |s| - |part| && SameAt(s, part, i)
  {
    forall i | 0 <= i <= |s| - |part| ensures FoldedAt(s, part, i) <==> SameAt(s, part, i) {
      LowerIff(s[i..i + |part|], part);
    }
  }
}

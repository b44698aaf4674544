/** The address guard: which literal or resolved addresses must not be fetched. */
module UrlGuard {
  import opened Bits
  import opened Digits
  import opened Strings
  import opened Wrappers

  // ---------------------------------------------------------------- IPv4

  function Numbers(parts: seq<string>): (r: seq<Option<nat>>)
    ensures |r| == |parts|
  {
    seq(|parts|, i requires 0 <= i < |parts| => NumberOf(parts[i]))
  }

  predicate AllBytes(ns: seq<Option<nat>>) {
    forall i :: 0 <= i < |ns| ==> ns[i].Some? && ns[i].value <= 255
  }

  function IsBlockedV4(ip: string): bool {
    var p := Numbers(Split(ip, '.'));
    if |p| != 4 || !AllBytes(p) then true
    else BlockedBytes(p[0].value, p[1].value, p[2].value)
  }

  predicate BlockedBytes(a: nat, b: nat, c: nat) {
    || a == 0
    || a == 127
    || a == 10
    || (a == 172 && b >= 16 && b <= 31)
    || (a == 192 && b == 168)
    || (a == 169 && b == 254)
    || (a == 100 && b >= 64 && b <= 127)
    || (a == 198 && (b == 18 || b == 19))
    || (a == 192 && b == 0 && c == 0)
    || (a == 192 && b == 88 && c == 99)
    || a >= 224
  }

  // ---------------------------------------------------------------- IPv6

  /** The characters a `.` of a pattern does not match. */
  predicate LineBreak(c: char) {
    c == '\n' || c == '\r' || c == '\U{2028}' || c == '\U{2029}'
  }

  /** The length of the text up to and with its last colon. */
  function LastColon(s: string): (n: nat)
    ensures n <= |s| && (n > 0 ==> s[n-1] == ':') && forall i :: n <= i < |s| ==> s[i] != ':'
  {
    if s == "" then 0 else if s[|s|-1] == ':' then |s| else LastColon(s[..|s|-1])
  }

  /** The match of `^(.*:)(\\d+\\.\\d+\\.\\d+\\.\\d+)$`: where its second group starts, and its parts. */
  function DottedTail(s: string): Option<(nat, seq<string>)> {
    var n := LastColon(s);
    var parts := Split(s[n..], '.');
    if n > 0 && (forall i :: 0 <= i < n ==> !LineBreak(s[i]))
       && |parts| == 4 && (forall i :: 0 <= i < 4 ==> parts[i] != "" && AllDec(parts[i]))
    then Some((n, parts)) else None
  }

  /** Two bytes as one hextet, printed. */
  function HextetText(a: nat, b: nat): string {
    Numeral(BitOr(ShiftLeft(a, 8), b), 16)
  }

  /** A dotted tail folded into two hextets; None when one of its numbers is no byte. */
  function Folded(s: string): Option<string> {
    var v4 := DottedTail(s);
    if v4.None? then Some(s)
    else
      var p := Numbers(v4.value.1);
      if !AllBytes(p) then None
      else Some(s[..v4.value.0] + HextetText(p[0].value, p[1].value) + ":" + HextetText(p[2].value, p[3].value))
  }

  predicate DoubleAt(s: string, i: nat) {
    i + 1 < |s| && s[i] == ':' && s[i+1] == ':'
  }

  /** The first `::`, or the length. */
  function FirstDouble(s: string): (n: nat)
    ensures n <= |s| && (n < |s| ==> DoubleAt(s, n)) && forall i :: 0 <= i < n ==> !DoubleAt(s, i)
  {
    if |s| < 2 then |s|
    else if DoubleAt(s, 0) then 0
    else
      assert forall i :: 1 <= i < |s| ==> DoubleAt(s[1..], i - 1) == DoubleAt(s, i);
      1 + FirstDouble(s[1..])
  }

  /** `split('::')`. */
  function SplitDouble(s: string): (parts: seq<string>)
    ensures |parts| >= 1
    decreases |s|
  {
    var n := FirstDouble(s);
    if n == |s| then [s] else [s[..n]] + SplitDouble(s[n+2..])
  }

  function Colons(half: string): seq<string> {
    if half == "" then [] else Split(half, ':')
  }

  function Hextet(g: string): Option<nat> {
    var n := ParseInt16(if g == "" then "0" else g);
    if n.None? || n.value < 0 || n.value > 0xffff then None else Some(n.value)
  }

  function Hextets(groups: seq<string>): Option<seq<nat>> {
    if groups == [] then Some([])
    else
      var first := Hextet(groups[0]);
      var rest := Hextets(groups[1..]);
      if first.None? || rest.None? then None else Some([first.value] + rest.value)
  }

  function Zeros(n: int): (z: seq<string>)
    ensures |z| == (if n < 0 then 0 else n) && forall i :: 0 <= i < |z| ==> z[i] == "0"
  {
    seq(if n < 0 then 0 else n, i => "0")
  }

  function ExpandV6(ip: string): Option<seq<nat>> {
    var s := Folded(Split(Lower(ip), '%')[0]);
    if s.None? then None else ExpandGroups(SplitDouble(s.value))
  }

  /** The groups of one half, or of two with the zeros left out between them. */
  function Groups(halves: seq<string>): seq<string>
    requires |halves| >= 1
  {
    var head := Colons(halves[0]);
    if |halves| == 1 then head
    else
      var tail := Colons(halves[1]);
      head + Zeros(8 - |head| - |tail|) + tail
  }

  function ExpandGroups(halves: seq<string>): Option<seq<nat>>
    requires |halves| >= 1
  {
    if |halves| > 2 || |Groups(halves)| != 8 then None else Hextets(Groups(halves))
  }

  /** Four bytes in dotted decimals. */
  function DottedText(a: nat, b: nat, c: nat, d: nat): string {
    Numeral(a, 10) + "." + Numeral(b, 10) + "." + Numeral(c, 10) + "." + Numeral(d, 10)
  }

  function EmbeddedBlocked(hi: nat, lo: nat): bool {
    IsBlockedV4(DottedText(BitAnd(ShiftRight(hi, 8), 0xff), BitAnd(hi, 0xff), BitAnd(ShiftRight(lo, 8), 0xff),
      BitAnd(lo, 0xff)))
  }

  function BlockedHextets(g: seq<nat>): bool
    requires |g| == 8
  {
    if g[0] == 0 && g[1] == 0 && g[2] == 0 && g[3] == 0 && g[4] == 0 && (g[5] == 0xffff || g[5] == 0) then
      EmbeddedBlocked(g[6], g[7])
    else if g[0] == 0x64 && g[1] == 0xff9b then EmbeddedBlocked(g[6], g[7])
    else BitAnd(g[0], 0xfe00) == 0xfc00 || BitAnd(g[0], 0xffc0) == 0xfe80
  }

  function IsBlockedV6(ip: string): bool {
    var g := ExpandV6(ip);
    g.None? || |g.value| != 8 || BlockedHextets(g.value)
  }

  /** `version` is the answer of `isIP`. */
  function IsBlockedAddress(ip: string, version: nat): bool {
    if version == 4 then IsBlockedV4(ip) else if version == 6 then IsBlockedV6(ip) else true
  }
}

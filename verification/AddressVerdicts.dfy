/** Verdicts of the address guard on texts, as plain ranges of addresses. */
module AddressVerdicts {
  import opened Arithmetic
  import opened AddressRanges
  import opened Bits
  import opened Digits
  import opened Ipv6Spelling
  import opened Strings
  import opened UrlGuard
  import opened Wrappers

  // ---------------------------------------------------------------- IPv4

  /** The 32-bit addresses that are not public, range by range. */
  predicate NonPublic(v: nat) {
    || v < 0x0100_0000                    // 0.0.0.0 to 0.255.255.255
    || 0x0a00_0000 <= v < 0x0b00_0000     // 10.0.0.0 to 10.255.255.255
    || 0x6440_0000 <= v < 0x6480_0000     // 100.64.0.0 to 100.127.255.255
    || 0x7f00_0000 <= v < 0x8000_0000     // 127.0.0.0 to 127.255.255.255
    || 0xa9fe_0000 <= v < 0xa9ff_0000     // 169.254.0.0 to 169.254.255.255
    || 0xac10_0000 <= v < 0xac20_0000     // 172.16.0.0 to 172.31.255.255
    || 0xc000_0000 <= v < 0xc000_0100     // 192.0.0.0 to 192.0.0.255
    || 0xc058_6300 <= v < 0xc058_6400     // 192.88.99.0 to 192.88.99.255
    || 0xc0a8_0000 <= v < 0xc0a9_0000     // 192.168.0.0 to 192.168.255.255
    || 0xc612_0000 <= v < 0xc614_0000     // 198.18.0.0 to 198.19.255.255
    || 0xe000_0000 <= v                   // 224.0.0.0 and above
  }

  lemma BytesIff(a: nat, b: nat, c: nat, d: nat)
    requires a < 256 && b < 256 && c < 256 && d < 256
    ensures BlockedBytes(a, b, c) <==> NonPublic(a * 0x100_0000 + b * 0x1_0000 + c * 0x100 + d)
  {}

  /** An IPv4 address in dotted decimals is blocked exactly if it is in one of the ranges. */
  lemma DottedIff(a: nat, b: nat, c: nat, d: nat)
    requires a < 256 && b < 256 && c < 256 && d < 256
    ensures IsBlockedAddress(DottedText(a, b, c, d), 4) <==>
            NonPublic(a * 0x100_0000 + b * 0x1_0000 + c * 0x100 + d)
  {
    DottedRoundTrip(a, b, c, d);
    BytesIff(a, b, c, d);
  }

  // ---------------------------------------------------------------- IPv6

  lemma LocalRanges(x: nat)
    requires x <= 0xffff
    ensures BitAnd(x, 0xfe00) == 0xfc00 <==> 0xfc00 <= x <= 0xfdff
    ensures BitAnd(x, 0xffc0) == 0xfe80 <==> 0xfe80 <= x <= 0xfebf
  {
    UniqueLocalMask(x);
    LinkLocalMask(x);
  }

  /** Below the mapped, the compatible or the 64:ff9b prefix. */
  predicate Embeds(h: seq<nat>)
    requires |h| == 8
  {
    || (h[0] == 0 && h[1] == 0 && h[2] == 0 && h[3] == 0 && h[4] == 0 && (h[5] == 0 || h[5] == 0xffff))
    || (h[0] == 0x64 && h[1] == 0xff9b)
  }

  /** By its last 32 bits where it embeds an IPv4 address, and otherwise from fc00 to fdff and
      from fe80 to febf. */
  predicate NonPublicV6(h: seq<nat>)
    requires |h| == 8
  {
    if Embeds(h) then NonPublic(h[6] * 0x1_0000 + h[7])
    else 0xfc00 <= h[0] <= 0xfdff || 0xfe80 <= h[0] <= 0xfebf
  }

  lemma EmbeddedIff(hi: nat, lo: nat)
    requires hi <= 0xffff && lo <= 0xffff
    ensures EmbeddedBlocked(hi, lo) <==> NonPublic(hi * 0x1_0000 + lo)
  {
    var a, b, c, d := hi / 256, hi % 256, lo / 256, lo % 256;
    EmbeddedVerdict(a, b, c, d);
    BytesIff(a, b, c, d);
  }

  lemma HextetsIff(h: seq<nat>)
    requires IsAddress(h)
    ensures BlockedHextets(h) <==> NonPublicV6(h)
  {
    if Embeds(h) { EmbeddedIff(h[6], h[7]); } else { LocalRanges(h[0]); }
  }

  /** An IPv6 address in any legal spelling. */
  lemma SpellingIff(sp: Spelling)
    requires Legal(sp)
    ensures IsBlockedAddress(Written(sp), 6) <==> NonPublicV6(Denotes(sp))
  {
    VerdictIsOfTheAddress(sp);
    RoundTrip(sp);
    ExpansionIsAddress(Written(sp));
    HextetsIff(Denotes(sp));
  }

  /** What is no IP address is blocked. */
  lemma OthersAreBlocked(ip: string, version: nat)
    requires version != 4 && version != 6
    ensures IsBlockedAddress(ip, version)
  {}

  // ---------------------------------------------------------------- texts that are no address

  lemma {:induction false} ManyParts(s: string, i: nat, j: nat)
    requires DoubleAt(s, i)
    ensures |SplitDouble(s)| >= 2
    ensures i + 2 <= j && DoubleAt(s, j) ==> |SplitDouble(s)| >= 3
    decreases |s|
  {
    var n := FirstDouble(s);
    assert n <= i;
    if i + 2 <= j && DoubleAt(s, j) {
      var rest := s[n+2..];
      assert DoubleAt(rest, j - n - 2);
      ManyParts(rest, j - n - 2, 0);
    }
  }

  /** Two `::` make no address. */
  lemma TwoDoubles(s: string, i: nat, j: nat)
    requires '.' !in s && '%' !in s && DoubleAt(s, i) && DoubleAt(s, j) && i + 2 <= j
    ensures ExpandV6(s) == None && IsBlockedAddress(s, 6)
  {
    var l := Lower(s);
    assert '.' !in l && '%' !in l && DoubleAt(l, i) && DoubleAt(l, j);
    SplitNone(l, '%');
    NotFolded(l);
    ManyParts(l, i, j);
  }

  /** Groups of hexadecimal digits reach the count as they are written. */
  lemma GroupsReached(left: seq<string>, compressed: bool, right: seq<string>)
    requires (forall g :: g in left ==> IsGroup(g)) && (forall g :: g in right ==> IsGroup(g))
    requires !compressed ==> left != [] && right == []
    ensures ExpandV6(Body(left, compressed, right)) ==
            ExpandGroups(SplitDouble(Body(LowerAll(left), compressed, LowerAll(right))))
  {
    var l, r := LowerAll(left), LowerAll(right);
    GroupsValued(left);
    GroupsValued(right);
    ValuedPlain(l, GroupValues(left));
    ValuedPlain(r, GroupValues(right));
    LowerBody(left, compressed, right);
    BodyNoPercent(l, compressed, r);
    SplitNone(Body(l, compressed, r), '%');
    assert r + [] == r && l + [] == l;
    FoldedWritten(l, GroupValues(left), compressed, r, GroupValues(right), None);
  }

  lemma CountedGroups(l: seq<string>, vl: seq<nat>, compressed: bool, r: seq<string>, vr: seq<nat>)
    requires Valued(l, vl) && Valued(r, vr) && (!compressed ==> r == [])
    ensures ExpandGroups(SplitDouble(Body(l, compressed, r))).Some? <==>
            if compressed then |l| + |r| <= 8 else |l| == 8
  {
    ValuedPlain(l, vl);
    ValuedPlain(r, vr);
    HalvesOf(l, compressed, r);
    ColonsOfJoin(l);
    ColonsOfJoin(r);
    GroupsOfHalves(JoinColons(l), JoinColons(r), l, r);
    if compressed && |l| + |r| <= 8 {
      ExpandCompressed(l, vl, r, vr);
    } else if !compressed && |l| == 8 {
      ExpandWhole(l, vl);
    }
  }

  /** Hexadecimal groups make an address exactly in the right number: eight, or with a `::` at
      most eight. */
  lemma CountDecides(left: seq<string>, compressed: bool, right: seq<string>)
    requires (forall g :: g in left ==> IsGroup(g)) && (forall g :: g in right ==> IsGroup(g))
    requires !compressed ==> left != [] && right == []
    ensures ExpandV6(Body(left, compressed, right)).Some? <==>
            if compressed then |left| + |right| <= 8 else |left| == 8
  {
    GroupsReached(left, compressed, right);
    GroupsValued(left);
    GroupsValued(right);
    CountedGroups(LowerAll(left), GroupValues(left), compressed, LowerAll(right), GroupValues(right));
  }

  lemma {:induction false} HextetsBounded(gs: seq<string>)
    ensures Hextets(gs).Some? ==>
              |Hextets(gs).value| == |gs| && forall i :: 0 <= i < |gs| ==> Hextets(gs).value[i] <= 0xffff
  {
    if gs != [] { HextetsBounded(gs[1..]); }
  }

  /** Whatever the text, an expansion is an address. */
  lemma ExpansionIsAddress(ip: string)
    ensures ExpandV6(ip).Some? ==> IsAddress(ExpandV6(ip).value)
  {
    var s := Folded(Split(Lower(ip), '%')[0]);
    if s.Some? { HextetsBounded(Groups(SplitDouble(s.value))); }
  }
}

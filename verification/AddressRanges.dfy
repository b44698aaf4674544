/** The byte and mask tests of the address guard are membership in the listed CIDR blocks. */
module AddressRanges {
  import opened Arithmetic
  import opened Bits
  import opened Digits
  import opened Ipv6Spelling
  import opened Strings
  import opened UrlGuard
  import opened Wrappers

  // ---------------------------------------------------------------- IPv4

  /** A CIDR block: its first address and how many addresses it holds, a power of two. */
  datatype Block = Block(base: nat, size: nat)

  predicate InBlock(v: nat, block: Block) {
    block.size >= 1 && v / block.size == block.base / block.size
  }

  function Value32(a: nat, b: nat, c: nat, d: nat): nat {
    ((a * 256 + b) * 256 + c) * 256 + d
  }

  /** 0/8, 127/8, 10/8, 172.16/12, 192.168/16, 169.254/16, 100.64/10, 198.18/15, 192.0.0/24,
      192.88.99/24, and 224/3, which is all of multicast and what is reserved above it. */
  const NON_PUBLIC_V4: seq<Block> :=
    [Block(Value32(0, 0, 0, 0), 0x100_0000), Block(Value32(127, 0, 0, 0), 0x100_0000),
     Block(Value32(10, 0, 0, 0), 0x100_0000),
     Block(Value32(172, 16, 0, 0), 0x10_0000), Block(Value32(192, 168, 0, 0), 0x1_0000),
     Block(Value32(169, 254, 0, 0), 0x1_0000),
     Block(Value32(100, 64, 0, 0), 0x40_0000), Block(Value32(198, 18, 0, 0), 0x2_0000),
     Block(Value32(192, 0, 0, 0), 0x100),
     Block(Value32(192, 88, 99, 0), 0x100), Block(Value32(224, 0, 0, 0), 0x2000_0000)]

  predicate InSome(v: nat, blocks: seq<Block>) {
    exists i :: 0 <= i < |blocks| && InBlock(v, blocks[i])
  }

  predicate IsBytes(a: nat, b: nat, c: nat, d: nat) {
    a < 256 && b < 256 && c < 256 && d < 256
  }

  /** The byte test of each block. */
  predicate ByteTest(a: nat, b: nat, c: nat, i: nat) {
    match i
    case 0 => a == 0
    case 1 => a == 127
    case 2 => a == 10
    case 3 => a == 172 && 16 <= b <= 31
    case 4 => a == 192 && b == 168
    case 5 => a == 169 && b == 254
    case 6 => a == 100 && 64 <= b <= 127
    case 7 => a == 198 && 18 <= b <= 19
    case 8 => a == 192 && b == 0 && c == 0
    case 9 => a == 192 && b == 88 && c == 99
    case _ => a >= 224
  }

  predicate IsIthBlock(a: nat, b: nat, c: nat, d: nat, i: nat)
    requires i < |NON_PUBLIC_V4|
  {
    ByteTest(a, b, c, i) <==> InBlock(Value32(a, b, c, d), NON_PUBLIC_V4[i])
  }

  lemma Slash3(a: nat, b: nat, c: nat, d: nat)
    requires IsBytes(a, b, c, d)
    ensures IsIthBlock(a, b, c, d, 10)
  {
    assert Value32(a, b, c, d) / 0x2000_0000 == a / 32;
  }

  lemma Slash8(a: nat, b: nat, c: nat, d: nat)
    requires IsBytes(a, b, c, d)
    ensures IsIthBlock(a, b, c, d, 0)
    ensures IsIthBlock(a, b, c, d, 1)
    ensures IsIthBlock(a, b, c, d, 2)
  {
    assert Value32(a, b, c, d) / 0x100_0000 == a;
  }

  lemma Slash10(a: nat, b: nat, c: nat, d: nat)
    requires IsBytes(a, b, c, d)
    ensures IsIthBlock(a, b, c, d, 6)
  {
    assert Value32(a, b, c, d) / 0x40_0000 == a * 4 + b / 64;
  }

  lemma Slash12(a: nat, b: nat, c: nat, d: nat)
    requires IsBytes(a, b, c, d)
    ensures IsIthBlock(a, b, c, d, 3)
  {
    assert Value32(a, b, c, d) / 0x10_0000 == a * 16 + b / 16;
  }

  lemma Slash15(a: nat, b: nat, c: nat, d: nat)
    requires IsBytes(a, b, c, d)
    ensures IsIthBlock(a, b, c, d, 7)
  {
    assert Value32(a, b, c, d) / 0x2_0000 == a * 128 + b / 2;
  }

  lemma Slash16(a: nat, b: nat, c: nat, d: nat)
    requires IsBytes(a, b, c, d)
    ensures IsIthBlock(a, b, c, d, 4)
    ensures IsIthBlock(a, b, c, d, 5)
  {
    assert Value32(a, b, c, d) / 0x1_0000 == a * 256 + b;
  }

  lemma Slash24(a: nat, b: nat, c: nat, d: nat)
    requires IsBytes(a, b, c, d)
    ensures IsIthBlock(a, b, c, d, 8)
    ensures IsIthBlock(a, b, c, d, 9)
  {
    assert Value32(a, b, c, d) / 0x100 == (a * 256 + b) * 256 + c;
  }

  lemma SomeByteTest(a: nat, b: nat, c: nat)
    ensures BlockedBytes(a, b, c) <==> exists i :: 0 <= i < 11 && ByteTest(a, b, c, i)
  {
    assert ByteTest(a, b, c, 0) <==> a == 0;
    assert ByteTest(a, b, c, 1) <==> a == 127;
    assert ByteTest(a, b, c, 2) <==> a == 10;
    assert ByteTest(a, b, c, 3) <==> a == 172 && 16 <= b <= 31;
    assert ByteTest(a, b, c, 4) <==> a == 192 && b == 168;
    assert ByteTest(a, b, c, 5) <==> a == 169 && b == 254;
    assert ByteTest(a, b, c, 6) <==> a == 100 && 64 <= b <= 127;
    assert ByteTest(a, b, c, 7) <==> a == 198 && 18 <= b <= 19;
    assert ByteTest(a, b, c, 8) <==> a == 192 && b == 0 && c == 0;
    assert ByteTest(a, b, c, 9) <==> a == 192 && b == 88 && c == 99;
    assert ByteTest(a, b, c, 10) <==> a >= 224;
  }

  /** The byte tests hold of exactly the addresses in the listed blocks. */
  lemma ByteTestsAreBlocks(a: nat, b: nat, c: nat, d: nat)
    requires IsBytes(a, b, c, d)
    ensures BlockedBytes(a, b, c) <==> InSome(Value32(a, b, c, d), NON_PUBLIC_V4)
  {
    SomeByteTest(a, b, c);
    Slash3(a, b, c, d);
    Slash8(a, b, c, d);
    Slash10(a, b, c, d);
    Slash12(a, b, c, d);
    Slash15(a, b, c, d);
    Slash16(a, b, c, d);
    Slash24(a, b, c, d);
    assert forall i :: 0 <= i < 11 ==> IsIthBlock(a, b, c, d, i);
  }

  /** The address a text of four decimal bytes denotes. */
  function DottedAddress(ip: string): Option<nat> {
    var p := Numbers(Split(ip, '.'));
    if |p| == 4 && AllBytes(p) then Some(Value32(p[0].value, p[1].value, p[2].value, p[3].value)) else None
  }

  /** Blocked are the texts that are no address and the addresses in a block. */
  lemma VerdictV4(ip: string)
    ensures IsBlockedV4(ip) <==> DottedAddress(ip).None? || InSome(DottedAddress(ip).value, NON_PUBLIC_V4)
  {
    var p := Numbers(Split(ip, '.'));
    if |p| == 4 && AllBytes(p) {
      ByteTestsAreBlocks(p[0].value, p[1].value, p[2].value, p[3].value);
    }
  }

  function FourNumerals(a: nat, b: nat, c: nat, d: nat): seq<string> {
    [Numeral(a, 10), Numeral(b, 10), Numeral(c, 10), Numeral(d, 10)]
  }

  lemma DottedTextIs(a: nat, b: nat, c: nat, d: nat)
    ensures DottedText(a, b, c, d) == Join(FourNumerals(a, b, c, d), '.')
  {
    var p := FourNumerals(a, b, c, d);
    assert Join(p[3..], '.') == p[3];
    assert p[2..][1..] == p[3..] && p[1..][1..] == p[2..];
    assert Join(p[2..], '.') == p[2] + ['.'] + p[3];
    assert Join(p[1..], '.') == p[1] + ['.'] + (p[2] + ['.'] + p[3]);
    assert Join(p, '.') == p[0] + ['.'] + (p[1] + ['.'] + (p[2] + ['.'] + p[3]));
  }

  /** Printing four bytes and reading them back. */
  lemma DottedRoundTrip(a: nat, b: nat, c: nat, d: nat)
    requires IsBytes(a, b, c, d)
    ensures DottedAddress(DottedText(a, b, c, d)) == Some(Value32(a, b, c, d))
    ensures IsBlockedV4(DottedText(a, b, c, d)) == BlockedBytes(a, b, c)
  {
    var p := FourNumerals(a, b, c, d);
    DottedTextIs(a, b, c, d);
    forall t | t in p ensures '.' !in t { assert AllDec(t); }
    SplitJoin(p, '.');
    ValueOfNumeral(a, 10);
    ValueOfNumeral(b, 10);
    ValueOfNumeral(c, 10);
    ValueOfNumeral(d, 10);
    assert Numbers(p) == [Some(a), Some(b), Some(c), Some(d)];
  }

  // ---------------------------------------------------------------- embedded IPv4

  /** `::ffff:a.b.c.d`, `::a.b.c.d` (section 2.5.5 of RFC 4291) and `64:ff9b::a.b.c.d`
      (section 2.1 of RFC 6052). */
  datatype Embedding = Mapped | Compatible | Nat64

  function Embed(e: Embedding, hi: nat, lo: nat): seq<nat> {
    match e
    case Mapped => [0, 0, 0, 0, 0, 0xffff, hi, lo]
    case Compatible => [0, 0, 0, 0, 0, 0, hi, lo]
    case Nat64 => [0x64, 0xff9b, 0, 0, 0, 0, hi, lo]
  }

  lemma EmbeddedIs(hi: nat, lo: nat, a: nat, b: nat, c: nat, d: nat)
    requires BitAnd(ShiftRight(hi, 8), 0xff) == a && BitAnd(hi, 0xff) == b
    requires BitAnd(ShiftRight(lo, 8), 0xff) == c && BitAnd(lo, 0xff) == d
    ensures EmbeddedBlocked(hi, lo) == IsBlockedV4(DottedText(a, b, c, d))
  {}

  /** The shift, mask, print and parse chain comes out at the byte tests. */
  lemma EmbeddedVerdict(a: nat, b: nat, c: nat, d: nat)
    requires IsBytes(a, b, c, d)
    ensures EmbeddedBlocked(a * 256 + b, c * 256 + d) == BlockedBytes(a, b, c)
  {
    SplitHextet(a, b, a * 256 + b);
    SplitHextet(c, d, c * 256 + d);
    EmbeddedIs(a * 256 + b, c * 256 + d, a, b, c, d);
    DottedRoundTrip(a, b, c, d);
  }

  lemma EmbedVerdict(e: Embedding, a: nat, b: nat, c: nat, d: nat)
    requires IsBytes(a, b, c, d)
    ensures BlockedHextets(Embed(e, a * 256 + b, c * 256 + d)) == BlockedBytes(a, b, c)
  {
    EmbeddedVerdict(a, b, c, d);
  }

  /** Every spelling of an embedding of an IPv4 address gets the verdict of that address. */
  lemma EmbeddingsAgree(a: nat, b: nat, c: nat, d: nat, e: Embedding, sp: Spelling)
    requires IsBytes(a, b, c, d)
    requires Legal(sp) && Denotes(sp) == Embed(e, a * 256 + b, c * 256 + d)
    ensures IsBlockedAddress(Written(sp), 6) == IsBlockedAddress(DottedText(a, b, c, d), 4)
  {
    VerdictIsOfTheAddress(sp);
    EmbedVerdict(e, a, b, c, d);
    DottedRoundTrip(a, b, c, d);
  }

  // ---------------------------------------------------------------- IPv6

  /** The number the first `n` hextets spell. */
  function Leading(h: seq<nat>, n: nat): nat
    requires n <= |h|
  {
    if n == 0 then 0 else Leading(h, n - 1) * 0x1_0000 + h[n-1]
  }

  function Value128(h: seq<nat>): nat
    requires |h| == 8
  {
    Leading(h, 8)
  }

  lemma {:induction false} Pow2Add(m: nat, n: nat)
    ensures Pow2(m + n) == Pow2(m) * Pow2(n)
  {
    if m > 0 {
      Pow2Add(m - 1, n);
      MulTwo(Pow2(n), Pow2(m - 1));
    }
  }

  lemma Pow2Of16()
    ensures Pow2(16) == 0x1_0000
  {
    Pow2Of8();
    Pow2Add(8, 8);
  }

  /** Shifting sixteen bits out drops the last hextet. */
  lemma {:induction false} ShiftOut(h: seq<nat>, n: nat, k: nat)
    requires IsAddress(h) && n + k <= 8
    ensures ShiftRight(Leading(h, n + k), 16 * k) == Leading(h, n)
    decreases k
  {
    if k > 0 {
      ShiftOut(h, n, k - 1);
      var x, p := Leading(h, n + k), Pow2(16 * (k - 1));
      assert h[n+k-1] <= 0xffff;
      DivIs(x, 0x1_0000, Leading(h, n + k - 1));
      Pow2Of16();
      Pow2Add(16, 16 * (k - 1));
      assert 16 + 16 * (k - 1) == 16 * k;
      DivDiv(x, 0x1_0000, p);
    }
  }

  lemma ShiftTwice(x: nat, j: nat, k: nat)
    ensures ShiftRight(ShiftRight(x, j), k) == ShiftRight(x, j + k)
  {
    DivDiv(x, Pow2(j), Pow2(k));
    Pow2Add(j, k);
  }

  /** Leading hextets are told apart by the number they spell. */
  lemma {:induction false} LeadingIsUnique(h: seq<nat>, k: seq<nat>, n: nat)
    requires IsAddress(h) && IsAddress(k) && n <= 8
    ensures Leading(h, n) == Leading(k, n) <==> h[..n] == k[..n]
  {
    if n > 0 {
      LeadingIsUnique(h, k, n - 1);
      assert h[..n] == h[..n-1] + [h[n-1]] && k[..n] == k[..n-1] + [k[n-1]];
      assert h[n-1] <= 0xffff && k[n-1] <= 0xffff;
    }
  }

  /** The block of addresses that agree with this one above the host bits. */
  function BlockOf(h: seq<nat>, hostBits: nat): Block
    requires |h| == 8
  {
    Block(Value128(h), Pow2(hostBits))
  }

  /** A block whose prefix ends between hextets. */
  lemma InHextetBlock(h: seq<nat>, base: seq<nat>, n: nat, hostBits: nat)
    requires IsAddress(h) && IsAddress(base) && n <= 8 && hostBits == 16 * (8 - n)
    ensures InBlock(Value128(h), BlockOf(base, hostBits)) <==> forall i :: 0 <= i < n ==> h[i] == base[i]
  {
    ShiftOut(h, n, 8 - n);
    ShiftOut(base, n, 8 - n);
    LeadingIsUnique(h, base, n);
  }

  /** A block whose prefix ends within the first hextet. */
  lemma InFirstHextetBlock(h: seq<nat>, base: seq<nat>, k: nat, hostBits: nat)
    requires IsAddress(h) && IsAddress(base) && k <= 16 && hostBits == 112 + k
    ensures InBlock(Value128(h), BlockOf(base, hostBits)) <==> ShiftRight(h[0], k) == ShiftRight(base[0], k)
  {
    ShiftOut(h, 1, 7);
    ShiftOut(base, 1, 7);
    assert Leading(h, 0) == 0 && Leading(h, 1) == h[0];
    assert Leading(base, 0) == 0 && Leading(base, 1) == base[0];
    ShiftTwice(Value128(h), 112, k);
    ShiftTwice(Value128(base), 112, k);
  }

  const UNIQUE_LOCAL := BlockOf([0xfc00, 0, 0, 0, 0, 0, 0, 0], 121)
  const LINK_LOCAL := BlockOf([0xfe80, 0, 0, 0, 0, 0, 0, 0], 118)
  const MAPPED := BlockOf(Embed(Mapped, 0, 0), 32)
  const COMPATIBLE := BlockOf(Embed(Compatible, 0, 0), 32)
  /** The well-known prefix of RFC 6052 as the code tests it, by its first two hextets. */
  const NAT64_AS_TESTED := BlockOf(Embed(Nat64, 0, 0), 96)
  /** The same prefix with the length that RFC gives it. */
  const NAT64_AS_DOCUMENTED := BlockOf(Embed(Nat64, 0, 0), 32)

  /** A mask of high bits compared with a base compares what lies above the bits masked out. */
  lemma HighMask(x: nat, high: nat, bits: nat, m: nat, k: nat, p: nat, baseHigh: nat)
    requires m + 1 == Pow2(bits) && high < Pow2(bits) && p == Pow2(k) && high == x / p
    ensures BitAnd(x, m * p) == baseHigh * p <==> high == baseHigh
  {
    AndShiftedMask(x, m, k, m * p, high);
    AndLowMask(high, bits);
    SmallMod(high, Pow2(bits));
    SameMultiple(high, baseHigh, p);
  }

  lemma SmallMod(x: nat, d: nat)
    requires x < d
    ensures x % d == x
  {}

  lemma SameMultiple(a: nat, b: nat, p: nat)
    requires p >= 1
    ensures a * p == b * p <==> a == b
  {
    if a < b { MulMonotone(a + 1, b, p); MulStep(p, a); }
    if b < a { MulMonotone(b + 1, a, p); MulStep(p, b); }
  }

  /** `(g & 0xfe00) === 0xfc00` compares the first seven bits. */
  lemma UniqueLocalMask(g: nat)
    requires g <= 0xffff
    ensures BitAnd(g, 0xfe00) == 0xfc00 <==> g / 0x200 == 0x7e
  {
    assert Pow2(7) == 0x80 && Pow2(9) == 0x200;
    HighMask(g, g / 0x200, 7, 0x7f, 9, 0x200, 0x7e);
  }

  /** `(g & 0xffc0) === 0xfe80` compares the first ten bits. */
  lemma LinkLocalMask(g: nat)
    requires g <= 0xffff
    ensures BitAnd(g, 0xffc0) == 0xfe80 <==> g / 0x40 == 0x3fa
  {
    assert Pow2(6) == 0x40 && Pow2(8) == 0x100;
    assert Pow2(10) == 0x400;
    HighMask(g, g / 0x40, 10, 0x3ff, 6, 0x40, 0x3fa);
  }

  /** The low 32 bits. */
  function Low32(h: seq<nat>): nat
    requires |h| == 8
  {
    h[6] * 0x1_0000 + h[7]
  }

  /** The verdict as the comments describe it, with this block for the NAT64 prefix. */
  predicate BlockedIn(h: seq<nat>, nat64: Block)
    requires |h| == 8
  {
    var v := Value128(h);
    if InBlock(v, MAPPED) || InBlock(v, COMPATIBLE) || InBlock(v, nat64) then InSome(Low32(h), NON_PUBLIC_V4)
    else InBlock(v, UNIQUE_LOCAL) || InBlock(v, LINK_LOCAL)
  }

  predicate MiddleZero(h: seq<nat>)
    requires |h| == 8
  {
    h[2] == 0 && h[3] == 0 && h[4] == 0
  }

  predicate Nat64Start(h: seq<nat>)
    requires |h| == 8
  {
    h[0] == 0x64 && h[1] == 0xff9b
  }

  lemma ZeroPrefixes(h: seq<nat>)
    requires IsAddress(h)
    ensures InBlock(Value128(h), MAPPED) <==> h[0] == 0 && h[1] == 0 && MiddleZero(h) && h[5] == 0xffff
    ensures InBlock(Value128(h), COMPATIBLE) <==> h[0] == 0 && h[1] == 0 && MiddleZero(h) && h[5] == 0
  {
    InHextetBlock(h, Embed(Mapped, 0, 0), 6, 32);
    InHextetBlock(h, Embed(Compatible, 0, 0), 6, 32);
  }

  lemma Nat64Prefixes(h: seq<nat>)
    requires IsAddress(h)
    ensures InBlock(Value128(h), NAT64_AS_TESTED) <==> Nat64Start(h)
    ensures InBlock(Value128(h), NAT64_AS_DOCUMENTED) <==> Nat64Start(h) && MiddleZero(h) && h[5] == 0
  {
    InHextetBlock(h, Embed(Nat64, 0, 0), 2, 96);
    InHextetBlock(h, Embed(Nat64, 0, 0), 6, 32);
  }

  lemma UniqueLocalPrefix(h: seq<nat>)
    requires IsAddress(h)
    ensures InBlock(Value128(h), UNIQUE_LOCAL) <==> BitAnd(h[0], 0xfe00) == 0xfc00
  {
    InFirstHextetBlock(h, [0xfc00, 0, 0, 0, 0, 0, 0, 0], 9, 121);
    UniqueLocalMask(h[0]);
    assert Pow2(9) == 0x200;
  }

  lemma LinkLocalPrefix(h: seq<nat>)
    requires IsAddress(h)
    ensures InBlock(Value128(h), LINK_LOCAL) <==> BitAnd(h[0], 0xffc0) == 0xfe80
  {
    InFirstHextetBlock(h, [0xfe80, 0, 0, 0, 0, 0, 0, 0], 6, 118);
    LinkLocalMask(h[0]);
    assert Pow2(6) == 0x40;
  }

  lemma LowVerdict(h: seq<nat>)
    requires IsAddress(h)
    ensures EmbeddedBlocked(h[6], h[7]) <==> InSome(Low32(h), NON_PUBLIC_V4)
  {
    var a, b, c, d := h[6] / 256, h[6] % 256, h[7] / 256, h[7] % 256;
    EmbeddedVerdict(a, b, c, d);
    ByteTestsAreBlocks(a, b, c, d);
    assert Value32(a, b, c, d) == Low32(h);
  }

  /** The hextet tests are membership of the 128-bit address in the blocks. */
  lemma VerdictV6(h: seq<nat>)
    requires IsAddress(h)
    ensures BlockedHextets(h) == BlockedIn(h, NAT64_AS_TESTED)
  {
    ZeroPrefixes(h);
    Nat64Prefixes(h);
    UniqueLocalPrefix(h);
    LinkLocalPrefix(h);
    LowVerdict(h);
  }

  lemma NeitherLocal(h: seq<nat>)
    requires IsAddress(h) && h[0] == 0x64
    ensures !InBlock(Value128(h), UNIQUE_LOCAL) && !InBlock(Value128(h), LINK_LOCAL)
  {
    UniqueLocalPrefix(h);
    LinkLocalPrefix(h);
    UniqueLocalMask(0x64);
    LinkLocalMask(0x64);
  }

  /** The code tests the first 32 bits of the NAT64 prefix where its comment gives 96. The
      verdicts differ exactly on addresses between the two prefixes that end in a blocked
      IPv4 address; those the code blocks in addition. */
  lemma Nat64TestIsWider(h: seq<nat>)
    requires IsAddress(h)
    ensures BlockedHextets(h) != BlockedIn(h, NAT64_AS_DOCUMENTED) <==>
            Nat64Start(h) && !(MiddleZero(h) && h[5] == 0) && InSome(Low32(h), NON_PUBLIC_V4)
    ensures BlockedIn(h, NAT64_AS_DOCUMENTED) ==> BlockedHextets(h)
  {
    VerdictV6(h);
    ZeroPrefixes(h);
    Nat64Prefixes(h);
    if Nat64Start(h) { NeitherLocal(h); }
  }

  /** The condition does hold somewhere: 64:ff9b::1:a00:0 ends in 10.0.0.0 outside the /96. */
  lemma WiderWitness()
    ensures var h := [0x64, 0xff9b, 0, 0, 0, 1, 0xa00, 0];
            IsAddress(h) && BlockedHextets(h) && !BlockedIn(h, NAT64_AS_DOCUMENTED)
  {
    var h := [0x64, 0xff9b, 0, 0, 0, 1, 0xa00, 0];
    ByteTestsAreBlocks(10, 0, 0, 0);
    assert Low32(h) == Value32(10, 0, 0, 0);
    Nat64TestIsWider(h);
  }
}

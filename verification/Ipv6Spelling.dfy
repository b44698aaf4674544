/** Every legal spelling of an IPv6 address (section 2.2 of RFC 4291) expands to its hextets. */
module Ipv6Spelling {
  import opened Digits
  import opened Strings
  import opened UrlGuard
  import opened Wrappers

  // ---------------------------------------------------------------- spellings

  /** A written address: groups before and, if a run of zeros is compressed, after the `::`,
      the dotted decimals in place of the last two groups, and a zone. */
  datatype Spelling = Spelling(left: seq<string>, compressed: bool, right: seq<string>,
                               dotted: Option<seq<string>>, zone: Option<string>)

  function JoinColons(gs: seq<string>): string {
    if gs == [] then "" else Join(gs, ':')
  }

  function Body(left: seq<string>, compressed: bool, right: seq<string>): string {
    if compressed then JoinColons(left) + "::" + JoinColons(right) else JoinColons(left)
  }

  /** A body with groups appended at its end. */
  function Appended(left: seq<string>, compressed: bool, right: seq<string>, more: seq<string>): string {
    if compressed then Body(left, true, right + more) else Body(left + more, false, [])
  }

  function Tail(sp: Spelling): seq<string>
    requires sp.dotted.Some? ==> |sp.dotted.value| == 4
  {
    if sp.dotted.Some? then [Join(sp.dotted.value, '.')] else []
  }

  function Written(sp: Spelling): string
    requires sp.dotted.Some? ==> |sp.dotted.value| == 4
  {
    Appended(sp.left, sp.compressed, sp.right, Tail(sp)) + if sp.zone.Some? then "%" + sp.zone.value else ""
  }

  /** One to four hexadecimal digits of either case, with leading zeros or without. */
  predicate IsGroup(g: string) {
    1 <= |g| <= 4 && AllHex(g)
  }

  predicate IsByteText(d: string) {
    1 <= |d| <= 3 && AllDec(d) && Value(d, 10) <= 255
  }

  predicate FourBytes(ds: seq<string>) {
    |ds| == 4 && IsByteText(ds[0]) && IsByteText(ds[1]) && IsByteText(ds[2]) && IsByteText(ds[3])
  }

  function GroupValues(gs: seq<string>): (vs: seq<nat>)
    requires forall g :: g in gs ==> IsGroup(g)
    ensures |vs| == |gs|
  {
    seq(|gs|, i requires 0 <= i < |gs| => assert gs[i] in gs && IsGroup(gs[i]); Value(gs[i], 16))
  }

  function DottedValues(ds: seq<string>): seq<nat>
    requires FourBytes(ds)
  {
    [Value(ds[0], 10) * 256 + Value(ds[1], 10), Value(ds[2], 10) * 256 + Value(ds[3], 10)]
  }

  predicate Legal(sp: Spelling) {
    && (forall g :: g in sp.left ==> IsGroup(g)) && (forall g :: g in sp.right ==> IsGroup(g))
    && (sp.dotted.Some? ==> FourBytes(sp.dotted.value))
    && var n := |sp.left| + |sp.right| + (if sp.dotted.Some? then 2 else 0);
       if sp.compressed then n <= 7 else sp.right == [] && n == 8
  }

  function TailValues(sp: Spelling): seq<nat>
    requires Legal(sp)
  {
    if sp.dotted.Some? then DottedValues(sp.dotted.value) else []
  }

  function ZeroRun(n: nat): (z: seq<nat>)
    ensures |z| == n && forall i :: 0 <= i < n ==> z[i] == 0
  {
    seq(n, i => 0)
  }

  /** The values written, with as many zeros for the compressed run as are missing. */
  function Filled(left: seq<nat>, compressed: bool, right: seq<nat>, tail: seq<nat>): seq<nat>
    requires |left| + |right| + |tail| <= 8
  {
    if compressed then left + ZeroRun(8 - |left| - |right| - |tail|) + right + tail else left + right + tail
  }

  /** The address a legal spelling denotes: the compressed run is as long as it must be. */
  function Denotes(sp: Spelling): (h: seq<nat>)
    requires Legal(sp)
  {
    Filled(GroupValues(sp.left), sp.compressed, GroupValues(sp.right), TailValues(sp))
  }

  // ---------------------------------------------------------------- plain groups

  /** Nonempty, and free of the characters the splits look for. */
  predicate Plain(g: string) {
    g != "" && forall i :: 0 <= i < |g| ==> g[i] != ':' && g[i] != '%' && !LineBreak(g[i])
  }

  predicate AllPlain(gs: seq<string>) {
    forall g :: g in gs ==> Plain(g)
  }

  lemma GroupIsPlain(g: string)
    requires AllHex(g) && g != ""
    ensures Plain(g)
  {}

  /** Joined plain groups hold no `%`, no line break and no two colons in a row, and neither
      start nor end with a colon. */
  lemma {:induction false} JoinShape(gs: seq<string>)
    requires AllPlain(gs) && gs != []
    ensures var s := Join(gs, ':');
            && s != "" && s[0] != ':' && s[|s|-1] != ':'
            && (forall i :: 0 <= i < |s| ==> s[i] != '%' && !LineBreak(s[i]))
            && (forall i :: 0 <= i < |s| ==> !DoubleAt(s, i))
  {
    assert gs[0] in gs;
    if |gs| > 1 {
      assert AllPlain(gs[1..]);
      JoinShape(gs[1..]);
      var a, rest := gs[0], Join(gs[1..], ':');
      var s := Join(gs, ':');
      assert s == a + [':'] + rest;
      forall i | 0 <= i < |s| ensures !DoubleAt(s, i) {
        if i >= |a| + 1 { assert DoubleAt(s, i) == DoubleAt(rest, i - |a| - 1); }
      }
      forall i | 0 <= i < |s| ensures s[i] != '%' && !LineBreak(s[i]) {
        if i >= |a| + 1 { assert s[i] == rest[i - |a| - 1]; }
      }
      assert s[|s|-1] == rest[|rest|-1];
    }
  }

  lemma FirstDoubleIs(s: string, n: nat)
    requires n <= |s| && (n < |s| ==> DoubleAt(s, n)) && forall i :: 0 <= i < n ==> !DoubleAt(s, i)
    ensures FirstDouble(s) == n
  {
    var m := FirstDouble(s);
    assert m < |s| ==> m >= n;
    assert n < |s| ==> n >= m;
  }

  lemma ColonsOfJoin(gs: seq<string>)
    requires AllPlain(gs)
    ensures Colons(JoinColons(gs)) == gs
  {
    if gs != [] {
      JoinShape(gs);
      forall g | g in gs ensures ':' !in g { assert Plain(g); }
      SplitJoin(gs, ':');
    }
  }

  /** The halves of a body are its two lists of groups. */
  lemma HalvesOf(left: seq<string>, compressed: bool, right: seq<string>)
    requires AllPlain(left) && AllPlain(right)
    ensures SplitDouble(Body(left, compressed, right)) ==
            if compressed then [JoinColons(left), JoinColons(right)] else [JoinColons(left)]
  {
    var a, b := JoinColons(left), JoinColons(right);
    if left != [] { JoinShape(left); }
    if right != [] { JoinShape(right); }
    FirstDoubleIs(b, |b|);
    if compressed {
      var s := a + "::" + b;
      forall i | 0 <= i < |a| ensures !DoubleAt(s, i) {
        if i + 1 < |a| { assert DoubleAt(s, i) == DoubleAt(a, i); }
      }
      FirstDoubleIs(s, |a|);
      assert s[..|a|] == a && s[|a|+2..] == b;
    } else {
      FirstDoubleIs(a, |a|);
    }
  }

  // ---------------------------------------------------------------- folding

  /** What stands before the group appended to a body. */
  function Before(left: seq<string>, compressed: bool, right: seq<string>): string {
    if compressed then JoinColons(left) + "::" + (if right == [] then "" else Join(right, ':') + ":")
    else if left == [] then "" else Join(left, ':') + ":"
  }

  lemma JoinTwo(x: string, y: string)
    ensures Join([x], ':') == x && Join([x, y], ':') == x + ":" + y && Join([x, y], ':') == x + (":" + y)
  {
    assert [x, y][1..] == [y];
    assert Join([y], ':') == y;
  }

  lemma JoinMore(gs: seq<string>, more: seq<string>)
    requires more != []
    ensures Join(gs + more, ':') == (if gs == [] then "" else Join(gs, ':') + ":") + Join(more, ':')
  {
    if gs == [] { assert gs + more == more; } else { JoinAppend(gs, more, ':'); }
  }

  lemma Regroup<T>(a: seq<T>, b: seq<T>, c: seq<T>)
    ensures a + (b + c) == a + b + c
  {}

  lemma AppendedIs(left: seq<string>, compressed: bool, right: seq<string>, more: seq<string>)
    requires more != [] && (!compressed ==> right == [])
    ensures Appended(left, compressed, right, more) == Before(left, compressed, right) + Join(more, ':')
  {
    if compressed {
      var kept := if right == [] then "" else Join(right, ':') + ":";
      JoinMore(right, more);
      assert JoinColons(right + more) == kept + Join(more, ':');
      Regroup(JoinColons(left) + "::", kept, Join(more, ':'));
    } else {
      JoinMore(left, more);
    }
  }

  lemma BeforeShape(left: seq<string>, compressed: bool, right: seq<string>)
    requires AllPlain(left) && AllPlain(right) && (!compressed ==> left != [] && right == [])
    ensures var p := Before(left, compressed, right);
            p != "" && p[|p|-1] == ':' && forall i :: 0 <= i < |p| ==> p[i] != '%' && !LineBreak(p[i])
  {
    if left != [] { JoinShape(left); }
    if right != [] { JoinShape(right); }
  }

  lemma LastColonIs(p: string, x: string)
    requires p != "" && p[|p|-1] == ':' && ':' !in x
    ensures LastColon(p + x) == |p|
  {
    var s := p + x;
    var n := LastColon(s);
    assert s[|p|-1] == ':';
    assert forall i :: |p| <= i < |s| ==> s[i] == x[i-|p|];
  }

  /** Text without a dot is not folded. */
  lemma NotFolded(s: string)
    requires '.' !in s
    ensures Folded(s) == Some(s)
  {
    SplitNone(s[LastColon(s)..], '.');
  }

  lemma {:induction false} JoinAvoids(gs: seq<string>, c: char)
    requires gs != [] && c != ':' && forall g :: g in gs ==> c !in g
    ensures c !in Join(gs, ':')
  {
    if |gs| > 1 { JoinAvoids(gs[1..], c); }
  }

  lemma ByteTextJoin(ds: seq<string>)
    requires FourBytes(ds)
    ensures Plain(Join(ds, '.')) && Split(Join(ds, '.'), '.') == ds && Lower(Join(ds, '.')) == Join(ds, '.')
  {
    forall d | d in ds ensures '.' !in d { var i :| 0 <= i < 4 && ds[i] == d; }
    SplitJoin(ds, '.');
    var s := Join(ds, '.');
    assert ds[1..][1..] == ds[2..] && ds[1..][1..][1..] == ds[3..];
    assert Join(ds[3..], '.') == ds[3];
    assert Join(ds[2..], '.') == ds[2] + ['.'] + ds[3];
    assert Join(ds[1..], '.') == ds[1] + ['.'] + (ds[2] + ['.'] + ds[3]);
    assert s == ds[0] + ['.'] + (ds[1] + ['.'] + (ds[2] + ['.'] + ds[3]));
    assert forall i :: 0 <= i < |s| ==> IsDec(s[i]) || s[i] == '.';
  }

  /** The hextets a dotted tail is folded into. */
  function FoldedGroups(ds: seq<string>): seq<string>
    requires FourBytes(ds)
  {
    [HextetText(Value(ds[0], 10), Value(ds[1], 10)), HextetText(Value(ds[2], 10), Value(ds[3], 10))]
  }

  lemma NumbersOfBytes(ds: seq<string>)
    requires FourBytes(ds)
    ensures AllBytes(Numbers(ds)) && forall i :: 0 <= i < 4 ==> Numbers(ds)[i] == Some(Value(ds[i], 10))
  {
    assert forall i :: 0 <= i < 4 ==> IsByteText(ds[i]);
  }

  lemma DottedTailIs(p: string, x: string, ds: seq<string>)
    requires p != "" && p[|p|-1] == ':' && forall i :: 0 <= i < |p| ==> !LineBreak(p[i])
    requires ':' !in x && Split(x, '.') == ds && |ds| == 4 && forall i :: 0 <= i < 4 ==> ds[i] != "" && AllDec(ds[i])
    ensures DottedTail(p + x) == Some((|p|, ds))
  {
    LastColonIs(p, x);
    var s := p + x;
    assert s[|p|..] == x;
    assert forall i :: 0 <= i < |p| ==> s[i] == p[i];
  }

  lemma FoldedTail(p: string, ds: seq<string>)
    requires p != "" && p[|p|-1] == ':' && forall i :: 0 <= i < |p| ==> !LineBreak(p[i])
    requires FourBytes(ds)
    ensures Folded(p + Join(ds, '.')) == Some(p + Join(FoldedGroups(ds), ':'))
  {
    var x := Join(ds, '.');
    ByteTextJoin(ds);
    assert forall i :: 0 <= i < 4 ==> IsByteText(ds[i]);
    DottedTailIs(p, x, ds);
    assert (p + x)[..|p|] == p;
    NumbersOfBytes(ds);
    var g := FoldedGroups(ds);
    JoinTwo(g[0], g[1]);
    Regroup(p, g[0] + ":", g[1]);
    Regroup(p, g[0], ":");
  }

  // ---------------------------------------------------------------- lower case and zone

  function LowerAll(gs: seq<string>): (r: seq<string>)
    ensures |r| == |gs| && forall i :: 0 <= i < |gs| ==> r[i] == Lower(gs[i])
  {
    seq(|gs|, i requires 0 <= i < |gs| => Lower(gs[i]))
  }

  lemma {:induction false} LowerJoin(gs: seq<string>)
    requires gs != []
    ensures Lower(Join(gs, ':')) == Join(LowerAll(gs), ':')
  {
    if |gs| > 1 {
      LowerJoin(gs[1..]);
      assert LowerAll(gs)[1..] == LowerAll(gs[1..]);
      LowerConcat(gs[0], [':'] + Join(gs[1..], ':'));
      LowerConcat([':'], Join(gs[1..], ':'));
      assert Lower([':']) == [':'];
      assert gs[0] + [':'] + Join(gs[1..], ':') == gs[0] + ([':'] + Join(gs[1..], ':'));
    }
  }

  lemma LowerBody(left: seq<string>, compressed: bool, right: seq<string>)
    ensures Lower(Body(left, compressed, right)) == Body(LowerAll(left), compressed, LowerAll(right))
  {
    if left != [] { LowerJoin(left); }
    if right != [] { LowerJoin(right); }
    if compressed {
      LowerConcat(JoinColons(left) + "::", JoinColons(right));
      LowerConcat(JoinColons(left), "::");
      assert Lower("::") == "::";
    }
  }

  lemma BodyNoPercent(left: seq<string>, compressed: bool, right: seq<string>)
    requires AllPlain(left) && AllPlain(right)
    ensures '%' !in Body(left, compressed, right)
  {
    if left != [] { JoinShape(left); }
    if right != [] { JoinShape(right); }
  }

  lemma ZoneDropped(body: string, zone: Option<string>)
    requires '%' !in Lower(body)
    ensures Split(Lower(body + if zone.Some? then "%" + zone.value else ""), '%')[0] == Lower(body)
  {
    if zone.Some? {
      LowerConcat(body, "%" + zone.value);
      LowerConcat("%", zone.value);
      assert Lower("%") == "%";
      assert Lower(body) + ("%" + Lower(zone.value)) == Lower(body) + ['%'] + Lower(zone.value);
      SplitFirst(Lower(body), '%', Lower(zone.value));
    } else {
      assert body + "" == body;
      SplitNone(Lower(body), '%');
    }
  }

  // ---------------------------------------------------------------- expansion

  /** The groups have these values. */
  ghost predicate Valued(gs: seq<string>, vs: seq<nat>) {
    |gs| == |vs| && forall i :: 0 <= i < |gs| ==>
      gs[i] != "" && AllHex(gs[i]) && Value(gs[i], 16) == vs[i] && vs[i] <= 0xffff
  }

  lemma {:induction false} HextetsOf(gs: seq<string>, vs: seq<nat>)
    requires Valued(gs, vs)
    ensures Hextets(gs) == Some(vs)
  {
    if gs != [] {
      ParseHex(gs[0]);
      assert Valued(gs[1..], vs[1..]);
      HextetsOf(gs[1..], vs[1..]);
      assert [vs[0]] + vs[1..] == vs;
    }
  }

  lemma ValuedPlain(gs: seq<string>, vs: seq<nat>)
    requires Valued(gs, vs)
    ensures AllPlain(gs)
  {
    forall g | g in gs ensures Plain(g) { var i :| 0 <= i < |gs| && gs[i] == g; GroupIsPlain(g); }
  }

  lemma ValuedAppend(a: seq<string>, va: seq<nat>, b: seq<string>, vb: seq<nat>)
    requires Valued(a, va) && Valued(b, vb)
    ensures Valued(a + b, va + vb)
  {}

  lemma ValuedZeros(n: nat)
    ensures Valued(Zeros(n), ZeroRun(n))
  {
    assert Value("0", 16) == 0 by { assert "0"[..0] == ""; }
  }

  lemma GroupsOfHalves(a: string, b: string, left: seq<string>, right: seq<string>)
    requires Colons(a) == left && Colons(b) == right
    ensures Groups([a]) == left && Groups([a, b]) == left + Zeros(8 - |left| - |right|) + right
  {}

  /** Groups with these values around a `::` expand to them, with zeros between. */
  lemma ExpandCompressed(left: seq<string>, vl: seq<nat>, right: seq<string>, vr: seq<nat>)
    requires Valued(left, vl) && Valued(right, vr) && |left| + |right| <= 8
    ensures ExpandGroups(SplitDouble(Body(left, true, right))) == Some(vl + ZeroRun(8 - |vl| - |vr|) + vr)
  {
    ValuedPlain(left, vl);
    ValuedPlain(right, vr);
    HalvesOf(left, true, right);
    ColonsOfJoin(left);
    ColonsOfJoin(right);
    GroupsOfHalves(JoinColons(left), JoinColons(right), left, right);
    var n := 8 - |left| - |right|;
    ValuedZeros(n);
    ValuedAppend(left, vl, Zeros(n), ZeroRun(n));
    ValuedAppend(left + Zeros(n), vl + ZeroRun(n), right, vr);
    HextetsOf(left + Zeros(n) + right, vl + ZeroRun(n) + vr);
  }

  lemma ExpandWhole(left: seq<string>, vl: seq<nat>)
    requires Valued(left, vl) && |left| == 8
    ensures ExpandGroups(SplitDouble(Body(left, false, []))) == Some(vl)
  {
    ValuedPlain(left, vl);
    HalvesOf(left, false, []);
    ColonsOfJoin(left);
    GroupsOfHalves(JoinColons(left), "", left, []);
    HextetsOf(left, vl);
  }

  lemma {:induction false} ValueBound(s: string)
    requires AllHex(s) && |s| <= 4
    ensures Value(s, 16) <= 0xffff
  {
    if s != "" {
      var a := s[..|s|-1];
      if a != "" {
        var b := a[..|a|-1];
        if b != "" {
          var c := b[..|b|-1];
          if c != "" { assert c[..0] == "" && Value(c, 16) < 16; } else { assert Value(c, 16) == 0; }
          assert Value(b, 16) < 256;
        } else { assert Value(b, 16) == 0; }
        assert Value(a, 16) < 4096;
      } else { assert Value(a, 16) == 0; }
    }
  }

  lemma GroupsValued(gs: seq<string>)
    requires forall g :: g in gs ==> IsGroup(g)
    ensures Valued(LowerAll(gs), GroupValues(gs))
  {
    forall i | 0 <= i < |gs|
      ensures LowerAll(gs)[i] != "" && AllHex(LowerAll(gs)[i]) && Value(LowerAll(gs)[i], 16) == GroupValues(gs)[i] &&
        GroupValues(gs)[i] <= 0xffff
    {
      assert gs[i] in gs;
      LowerHex(gs[i]);
      ValueBound(gs[i]);
    }
  }

  lemma HextetTextValue(a: nat, b: nat)
    requires a <= 255 && b <= 255
    ensures HextetText(a, b) != "" && AllHex(HextetText(a, b)) && Value(HextetText(a, b), 16) == a * 256 + b
  {
    JoinBytes(a, b);
    ValueOfNumeral(a * 256 + b, 16);
  }

  lemma FoldedGroupsValued(ds: seq<string>)
    requires FourBytes(ds)
    ensures Valued(FoldedGroups(ds), DottedValues(ds))
  {
    HextetTextValue(Value(ds[0], 10), Value(ds[1], 10));
    HextetTextValue(Value(ds[2], 10), Value(ds[3], 10));
  }

  // ---------------------------------------------------------------- the round trip

  lemma LowerAppended(left: seq<string>, compressed: bool, right: seq<string>, more: seq<string>)
    requires LowerAll(more) == more
    ensures Lower(Appended(left, compressed, right, more)) ==
      Appended(LowerAll(left), compressed, LowerAll(right), more)
  {
    if compressed {
      LowerBody(left, true, right + more);
      assert LowerAll(right + more) == LowerAll(right) + more;
    } else {
      LowerBody(left + more, false, []);
      assert LowerAll(left + more) == LowerAll(left) + more;
    }
  }

  lemma AppendedNoPercent(left: seq<string>, compressed: bool, right: seq<string>, more: seq<string>)
    requires AllPlain(left) && AllPlain(right) && AllPlain(more)
    ensures '%' !in Appended(left, compressed, right, more)
  {
    if compressed { BodyNoPercent(left, true, right + more); } else { BodyNoPercent(left + more, false, []); }
  }

  lemma HexAvoidsDot(gs: seq<string>, vs: seq<nat>)
    requires Valued(gs, vs)
    ensures '.' !in JoinColons(gs)
  {
    if gs != [] {
      forall g | g in gs ensures '.' !in g { var i :| 0 <= i < |gs| && gs[i] == g; assert AllHex(g); }
      JoinAvoids(gs, '.');
    }
  }

  /** Once folded, a written address reads as hexadecimal groups only. */
  lemma FoldedWritten(left: seq<string>, vl: seq<nat>, compressed: bool, right: seq<string>, vr: seq<nat>,
      dotted: Option<seq<string>>)
    requires Valued(left, vl) && Valued(right, vr) && (dotted.Some? ==> FourBytes(dotted.value))
    requires !compressed ==> left != [] && right == []
    ensures Folded(Appended(left, compressed, right, if dotted.Some? then [Join(dotted.value, '.')] else [])) ==
            Some(Appended(left, compressed, right, if dotted.Some? then FoldedGroups(dotted.value) else []))
  {
    if dotted.Some? {
      var tail := Join(dotted.value, '.');
      ValuedPlain(left, vl);
      ValuedPlain(right, vr);
      BeforeShape(left, compressed, right);
      AppendedIs(left, compressed, right, [tail]);
      AppendedIs(left, compressed, right, FoldedGroups(dotted.value));
      FoldedTail(Before(left, compressed, right), dotted.value);
    } else {
      HexAvoidsDot(left, vl);
      HexAvoidsDot(right, vr);
      assert right + [] == right && left + [] == left;
      NotFolded(Appended(left, compressed, right, []));
    }
  }

  lemma FilledIs(left: seq<nat>, right: seq<nat>, tail: seq<nat>)
    requires |left| + |right| + |tail| <= 8
    ensures Filled(left, true, right, tail) == left + ZeroRun(8 - |left| - |right + tail|) + (right + tail)
    ensures right == [] ==> Filled(left, false, right, tail) == left + tail
  {
    Regroup(left + ZeroRun(8 - |left| - |right| - |tail|), right, tail);
    assert right == [] ==> left + right == left;
  }

  lemma ExpandAppendedCompressed(left: seq<string>, vl: seq<nat>, right: seq<string>, vr: seq<nat>, more: seq<string>,
                                 vm: seq<nat>)
    requires Valued(left, vl) && Valued(right, vr) && Valued(more, vm) && |left| + |right| + |more| <= 7
    ensures ExpandGroups(SplitDouble(Appended(left, true, right, more))) == Some(Filled(vl, true, vr, vm))
  {
    ValuedAppend(right, vr, more, vm);
    ExpandCompressed(left, vl, right + more, vr + vm);
    FilledIs(vl, vr, vm);
  }

  lemma ExpandAppendedWhole(left: seq<string>, vl: seq<nat>, more: seq<string>, vm: seq<nat>)
    requires Valued(left, vl) && Valued(more, vm) && |left| + |more| == 8
    ensures ExpandGroups(SplitDouble(Appended(left, false, [], more))) == Some(Filled(vl, false, [], vm))
  {
    ValuedAppend(left, vl, more, vm);
    ExpandWhole(left + more, vl + vm);
    FilledIs(vl, [], vm);
  }

  /** What the folded form expands to. */
  lemma ExpandAppended(left: seq<string>, vl: seq<nat>, compressed: bool, right: seq<string>, vr: seq<nat>,
                       more: seq<string>, vm: seq<nat>)
    requires Valued(left, vl) && Valued(right, vr) && Valued(more, vm)
    requires var n := |left| + |right| + |more|; if compressed then n <= 7 else right == [] && n == 8
    ensures ExpandGroups(SplitDouble(Appended(left, compressed, right, more))) == Some(Filled(vl, compressed, vr, vm))
  {
    if compressed {
      ExpandAppendedCompressed(left, vl, right, vr, more, vm);
    } else {
      assert vr == [];
      ExpandAppendedWhole(left, vl, more, vm);
    }
  }

  lemma LegalIsPlain(sp: Spelling)
    requires Legal(sp)
    ensures AllPlain(LowerAll(sp.left)) && AllPlain(LowerAll(sp.right)) && AllPlain(Tail(sp)) &&
      LowerAll(Tail(sp)) == Tail(sp)
  {
    GroupsValued(sp.left);
    GroupsValued(sp.right);
    ValuedPlain(LowerAll(sp.left), GroupValues(sp.left));
    ValuedPlain(LowerAll(sp.right), GroupValues(sp.right));
    if sp.dotted.Some? { ByteTextJoin(sp.dotted.value); }
  }

  function FoldedTailGroups(sp: Spelling): seq<string>
    requires Legal(sp)
  {
    if sp.dotted.Some? then FoldedGroups(sp.dotted.value) else []
  }

  function FoldedForm(sp: Spelling): string
    requires Legal(sp)
  {
    Appended(LowerAll(sp.left), sp.compressed, LowerAll(sp.right), FoldedTailGroups(sp))
  }

  /** The text that is split at `::`. */
  lemma FoldedText(sp: Spelling)
    requires Legal(sp)
    ensures Folded(Split(Lower(Written(sp)), '%')[0]) == Some(FoldedForm(sp))
  {
    var left, right := LowerAll(sp.left), LowerAll(sp.right);
    GroupsValued(sp.left);
    GroupsValued(sp.right);
    LegalIsPlain(sp);
    LowerAppended(sp.left, sp.compressed, sp.right, Tail(sp));
    AppendedNoPercent(left, sp.compressed, right, Tail(sp));
    ZoneDropped(Appended(sp.left, sp.compressed, sp.right, Tail(sp)), sp.zone);
    FoldedWritten(left, GroupValues(sp.left), sp.compressed, right, GroupValues(sp.right), sp.dotted);
  }

  /** The groups of the folded text and their values. */
  lemma FoldedValued(sp: Spelling)
    requires Legal(sp)
    ensures Valued(LowerAll(sp.left), GroupValues(sp.left)) && Valued(LowerAll(sp.right), GroupValues(sp.right))
    ensures Valued(FoldedTailGroups(sp), TailValues(sp))
  {
    GroupsValued(sp.left);
    GroupsValued(sp.right);
    if sp.dotted.Some? { FoldedGroupsValued(sp.dotted.value); }
  }

  lemma ExpandFoldedForm(sp: Spelling)
    requires Legal(sp)
    ensures ExpandGroups(SplitDouble(FoldedForm(sp))) == Some(Denotes(sp))
  {
    FoldedValued(sp);
    ExpandAppended(LowerAll(sp.left), GroupValues(sp.left), sp.compressed, LowerAll(sp.right), GroupValues(sp.right),
                   FoldedTailGroups(sp), TailValues(sp));
  }

  /** Every legal spelling expands to exactly the address it denotes. */
  lemma RoundTrip(sp: Spelling)
    requires Legal(sp)
    ensures ExpandV6(Written(sp)) == Some(Denotes(sp))
  {
    FoldedText(sp);
    ExpandFoldedForm(sp);
  }

  /** The verdict on a legal spelling is the verdict on its eight hextets. */
  lemma VerdictIsOfTheAddress(sp: Spelling)
    requires Legal(sp)
    ensures |Denotes(sp)| == 8 && IsBlockedV6(Written(sp)) == BlockedHextets(Denotes(sp))
  {
    RoundTrip(sp);
  }

  /** Two legal spellings of one address get the same verdict. */
  lemma SpellingDoesNotMatter(sp: Spelling, other: Spelling)
    requires Legal(sp) && Legal(other) && Denotes(sp) == Denotes(other)
    ensures IsBlockedAddress(Written(sp), 6) == IsBlockedAddress(Written(other), 6)
  {
    VerdictIsOfTheAddress(sp);
    VerdictIsOfTheAddress(other);
  }

  // ---------------------------------------------------------------- every address has its spellings

  predicate IsAddress(h: seq<nat>) {
    |h| == 8 && forall i :: 0 <= i < 8 ==> h[i] <= 0xffff
  }

  function Texts(h: seq<nat>): (gs: seq<string>)
    ensures |gs| == |h| && forall i :: 0 <= i < |h| ==> gs[i] == Numeral(h[i], 16)
  {
    seq(|h|, i requires 0 <= i < |h| => Numeral(h[i], 16))
  }

  lemma TextsDenote(h: seq<nat>)
    requires forall i :: 0 <= i < |h| ==> h[i] <= 0xffff
    ensures (forall g :: g in Texts(h) ==> IsGroup(g)) && GroupValues(Texts(h)) == h
  {
    forall i | 0 <= i < |h| ensures IsGroup(Texts(h)[i]) && Value(Texts(h)[i], 16) == h[i] {
      NumeralShort(h[i]);
      ValueOfNumeral(h[i], 16);
    }
  }

  /** Any one run of zeros may be compressed. */
  lemma AnyRunMayBeCompressed(h: seq<nat>, i: nat, j: nat, zone: Option<string>)
    requires IsAddress(h) && i < j <= 8 && forall k :: i <= k < j ==> h[k] == 0
    ensures var sp := Spelling(Texts(h[..i]), true, Texts(h[j..]), None, zone);
            Legal(sp) && Denotes(sp) == h && ExpandV6(Written(sp)) == Some(h)
  {
    TextsDenote(h[..i]);
    TextsDenote(h[j..]);
    var sp := Spelling(Texts(h[..i]), true, Texts(h[j..]), None, zone);
    assert h == h[..i] + ZeroRun(j - i) + h[j..] + [];
    RoundTrip(sp);
  }
}

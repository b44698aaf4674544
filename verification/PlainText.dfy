/** The text normaliser, on the UTF-16 code units a JavaScript string is made of. */
module PlainText {
  import Strings

  type Unit = n: nat | n < 0x1_0000
  type Text = seq<Unit>

  const SPACE: Unit := 0x20
  const LESS: Unit := 0x3c
  const GREATER: Unit := 0x3e

  // ---------------------------------------------------------------- the passes

  function IndexOf(s: Text, u: Unit): (i: nat)
    requires u in s
    ensures i < |s| && s[i] == u && forall j :: 0 <= j < i ==> s[j] != u
  {
    if s[0] == u then 0 else 1 + IndexOf(s[1..], u)
  }

  /** `replace(/<[^>]*>/g, ' ')`. */
  function StripTags(s: Text): Text {
    if s == [] then []
    else if s[0] == LESS && GREATER in s then [SPACE] + StripTags(s[IndexOf(s, GREATER) + 1..])
    else [s[0]] + StripTags(s[1..])
  }

  predicate IsControl(code: nat) {
    code < 0x20 || code == 0x7f
  }

  /** Every control character becomes a space. */
  function Cleaned(s: Text): (r: Text)
    ensures |r| == |s| && forall i :: 0 <= i < |s| ==> r[i] == if IsControl(s[i]) then SPACE else s[i]
  {
    seq(|s|, i requires 0 <= i < |s| => if IsControl(s[i]) then SPACE else s[i])
  }

  predicate IsSpace(u: Unit) {
    Strings.IsSpaceCode(u)
  }

  /** The first position from `i` on that holds no white space. */
  function Leading(s: Text, i: nat): (n: nat)
    requires i <= |s|
    ensures i <= n <= |s| && (n < |s| ==> !IsSpace(s[n])) && forall k :: i <= k < n ==> IsSpace(s[k])
    decreases |s| - i
  {
    if i < |s| && IsSpace(s[i]) then Leading(s, i + 1) else i
  }

  /** Behind the last position before `j` that holds no white space. */
  function Trailing(s: Text, j: nat): (n: nat)
    requires j <= |s|
    ensures n <= j && (n > 0 ==> !IsSpace(s[n-1])) && forall k :: n <= k < j ==> IsSpace(s[k])
  {
    if j > 0 && IsSpace(s[j-1]) then Trailing(s, j - 1) else j
  }

  /** `trim()`. */
  function Trim(s: Text): Text {
    var i, j := Leading(s, 0), Trailing(s, |s|);
    if i < j then s[i..j] else []
  }

  /** `replace(/\\s+/g, ' ')`. */
  function Collapsed(s: Text): Text
    decreases |s|
  {
    if s == [] then []
    else if IsSpace(s[0]) then [SPACE] + Collapsed(s[Leading(s, 1)..])
    else [s[0]] + Collapsed(s[1..])
  }

  /** The text before it is cut. */
  function Uncut(input: Text): Text {
    Trim(Collapsed(Cleaned(StripTags(input))))
  }

  function Slice(s: Text, max: nat): Text {
    if |s| <= max then s else s[..max]
  }

  function Normalised(input: Text, max: nat): Text {
    Slice(Uncut(input), max)
  }

  // ---------------------------------------------------------------- the loop

  predicate IsHigh(u: Unit) { 0xd800 <= u < 0xdc00 }

  predicate IsLow(u: Unit) { 0xdc00 <= u < 0xe000 }

  /** The code point a pair of surrogates stands for. */
  function CodePoint(high: Unit, low: Unit): (code: nat)
    requires IsHigh(high) && IsLow(low)
    ensures 0x1_0000 <= code < 0x11_0000
  {
    0x1_0000 + (high - 0xd800) * 0x400 + (low - 0xdc00)
  }

  /** The length of the character at a position: a surrogate pair has two units. */
  function Width(s: Text, i: nat): (w: nat)
    requires i < |s|
    ensures 1 <= w <= 2 && i + w <= |s|
  {
    if i + 1 < |s| && IsHigh(s[i]) && IsLow(s[i+1]) then 2 else 1
  }

  /** `codePointAt(0)` of the character there. */
  function CodeAt(s: Text, i: nat): nat
    requires i < |s|
  {
    if Width(s, i) == 2 then CodePoint(s[i], s[i+1]) else s[i]
  }

  lemma CharacterStep(s: Text, i: nat)
    requires i < |s|
    ensures Cleaned(s[..i + Width(s, i)]) ==
            Cleaned(s[..i]) + if IsControl(CodeAt(s, i)) then [SPACE] else s[i..i + Width(s, i)]
  {}

  /** The loop goes by code points, one or two units at a time, and cleans unit by unit all the same. */
  method PlainText(input: Text, max: nat) returns (r: Text)
    ensures r == Normalised(input, max)
  {
    var withoutTags := StripTags(input);
    var out: Text := [];
    var i := 0;
    while i < |withoutTags|
      invariant 0 <= i <= |withoutTags| && out == Cleaned(withoutTags[..i])
    {
      CharacterStep(withoutTags, i);
      var ch := withoutTags[i..i + Width(withoutTags, i)];
      var code := CodeAt(withoutTags, i);
      out := out + if IsControl(code) then [SPACE] else ch;
      i := i + |ch|;
    }
    assert withoutTags[..i] == withoutTags;
    r := Slice(Trim(Collapsed(out)), max);
  }

  // ---------------------------------------------------------------- tags

  /** No `<` with a later `>`. */
  predicate NoTag(s: Text) {
    forall i, j :: 0 <= i < j < |s| ==> !(s[i] == LESS && s[j] == GREATER)
  }

  lemma NoTagCons(u: Unit, s: Text)
    requires NoTag(s) && (u == LESS ==> GREATER !in s)
    ensures NoTag([u] + s)
  {
    var t := [u] + s;
    assert forall i :: 1 <= i < |t| ==> t[i] == s[i-1];
  }

  lemma NoTagRest(s: Text, k: nat)
    requires NoTag(s) && 0 < k <= |s|
    ensures NoTag(s[k..]) && (s[0] == LESS ==> GREATER !in s[k..])
  {
    assert forall i :: 0 <= i < |s[k..]| ==> s[k..][i] == s[k+i];
  }

  lemma {:induction false} StripNothing(s: Text)
    requires NoTag(s)
    ensures StripTags(s) == s
  {
    if s != [] {
      assert s == [s[0]] + s[1..];
      NoTagRest(s, 1);
      StripNothing(s[1..]);
    }
  }

  lemma {:induction false} StripLeavesNoTag(s: Text)
    ensures NoTag(StripTags(s))
  {
    if s != [] {
      assert s == [s[0]] + s[1..];
      if s[0] == LESS && GREATER in s {
        var rest := s[IndexOf(s, GREATER) + 1..];
        StripLeavesNoTag(rest);
        NoTagCons(SPACE, StripTags(rest));
      } else {
        StripLeavesNoTag(s[1..]);
        if s[0] == LESS { StripNothing(s[1..]); }
        NoTagCons(s[0], StripTags(s[1..]));
      }
    }
  }

  /** Text in front of a tag, and what the tag holds. */
  datatype Piece = Piece(text: Text, tag: Text)

  predicate IsPiece(p: Piece) {
    LESS !in p.text && GREATER !in p.tag
  }

  function Tagged(pieces: seq<Piece>, last: Text): Text {
    if pieces == [] then last
    else pieces[0].text + ([LESS] + pieces[0].tag + [GREATER] + Tagged(pieces[1..], last))
  }

  function Untagged(pieces: seq<Piece>, last: Text): Text {
    if pieces == [] then last
    else pieces[0].text + ([SPACE] + Untagged(pieces[1..], last))
  }

  lemma {:induction false} StripBefore(text: Text, rest: Text)
    requires LESS !in text
    ensures StripTags(text + rest) == text + StripTags(rest)
  {
    if text == [] {
      assert text + rest == rest;
    } else {
      assert (text + rest)[1..] == text[1..] + rest;
      StripBefore(text[1..], rest);
      assert [text[0]] + (text[1..] + StripTags(rest)) == text + StripTags(rest);
    }
  }

  lemma StripTag(tag: Text, rest: Text)
    requires GREATER !in tag
    ensures StripTags([LESS] + tag + [GREATER] + rest) == [SPACE] + StripTags(rest)
  {
    var s := [LESS] + tag + [GREATER] + rest;
    var k := |tag| + 1;
    assert s[k] == GREATER;
    assert forall j :: 1 <= j < k ==> s[j] == tag[j-1];
    assert IndexOf(s, GREATER) == k;
    assert s[k+1..] == rest;
  }

  /** Each tag becomes one space and the text around the tags stays. */
  lemma {:induction false} StripReplacesTags(pieces: seq<Piece>, last: Text)
    requires NoTag(last) && forall i :: 0 <= i < |pieces| ==> IsPiece(pieces[i])
    ensures StripTags(Tagged(pieces, last)) == Untagged(pieces, last)
  {
    if pieces == [] {
      StripNothing(last);
    } else {
      var p, rest := pieces[0], Tagged(pieces[1..], last);
      StripReplacesTags(pieces[1..], last);
      StripBefore(p.text, [LESS] + p.tag + [GREATER] + rest);
      StripTag(p.tag, rest);
    }
  }

  // ---------------------------------------------------------------- normal form

  /** No control character. */
  predicate Printable(s: Text) {
    forall i :: 0 <= i < |s| ==> !IsControl(s[i])
  }

  predicate DoubleSpaceAt(s: Text, i: nat) {
    i + 1 < |s| && IsSpace(s[i]) && IsSpace(s[i+1])
  }

  /** All white space is single spaces. */
  predicate SingleSpaced(s: Text) {
    (forall i :: 0 <= i < |s| && IsSpace(s[i]) ==> s[i] == SPACE) && (forall i :: 0 <= i < |s| ==> !DoubleSpaceAt(s, i))
  }

  predicate EndsInSpace(s: Text) {
    s != [] && s[|s|-1] == SPACE
  }

  predicate NormalForm(s: Text) {
    Printable(s) && NoTag(s) && SingleSpaced(s) && (s != [] ==> !IsSpace(s[0]))
  }

  lemma SingleSpacedCons(u: Unit, s: Text)
    requires SingleSpaced(s) && (IsSpace(u) ==> u == SPACE && (s != [] ==> !IsSpace(s[0])))
    ensures SingleSpaced([u] + s)
  {
    var t := [u] + s;
    assert forall i :: 1 <= i < |t| ==> t[i] == s[i-1] && DoubleSpaceAt(t, i) == DoubleSpaceAt(s, i-1);
  }

  lemma {:induction false} CollapsedStart(s: Text)
    ensures Collapsed(s) != [] <==> s != []
    ensures s != [] ==> Collapsed(s)[0] == if IsSpace(s[0]) then SPACE else s[0]
  {}

  lemma {:induction false} CollapsedSingle(s: Text)
    ensures SingleSpaced(Collapsed(s))
    decreases |s|
  {
    if s != [] {
      var rest := s[if IsSpace(s[0]) then Leading(s, 1) else 1..];
      CollapsedSingle(rest);
      CollapsedStart(rest);
      SingleSpacedCons(Collapsed(s)[0], Collapsed(rest));
    }
  }

  /** Collapsing brings in nothing but spaces. */
  lemma {:induction false} CollapsedIn(s: Text, u: Unit)
    requires u in Collapsed(s)
    ensures u == SPACE || u in s
    decreases |s|
  {
    var rest := s[if IsSpace(s[0]) then Leading(s, 1) else 1..];
    assert Collapsed(s) == [Collapsed(s)[0]] + Collapsed(rest);
    if u in Collapsed(rest) { CollapsedIn(rest, u); }
  }

  lemma {:induction false} CollapsedNoTag(s: Text)
    requires NoTag(s)
    ensures NoTag(Collapsed(s))
    decreases |s|
  {
    if s != [] {
      var k := if IsSpace(s[0]) then Leading(s, 1) else 1;
      var rest := s[k..];
      NoTagRest(s, k);
      CollapsedNoTag(rest);
      if GREATER in Collapsed(rest) { CollapsedIn(rest, GREATER); }
      NoTagCons(Collapsed(s)[0], Collapsed(rest));
    }
  }

  lemma CollapsedPrintable(s: Text)
    requires Printable(s)
    ensures Printable(Collapsed(s))
  {
    forall i | 0 <= i < |Collapsed(s)| ensures !IsControl(Collapsed(s)[i]) { CollapsedIn(s, Collapsed(s)[i]); }
  }

  lemma PartSingleSpaced(s: Text, i: nat, j: nat)
    requires SingleSpaced(s) && i <= j <= |s|
    ensures SingleSpaced(s[i..j])
  {
    assert forall k :: 0 <= k < j - i && DoubleSpaceAt(s[i..j], k) ==> DoubleSpaceAt(s, i + k);
  }

  lemma CollapsedIsNormal(s: Text)
    requires NoTag(s) && Printable(s)
    ensures NoTag(Collapsed(s)) && Printable(Collapsed(s)) && SingleSpaced(Collapsed(s))
  {
    CollapsedNoTag(s);
    CollapsedPrintable(s);
    CollapsedSingle(s);
  }

  lemma TrimmedIsNormal(c: Text)
    requires NoTag(c) && Printable(c) && SingleSpaced(c)
    ensures NormalForm(Trim(c)) && !EndsInSpace(Trim(c))
  {
    var i, j := Leading(c, 0), Trailing(c, |c|);
    if i < j { PartSingleSpaced(c, i, j); }
  }

  /** Everything but the length holds before the cut, and the end is trimmed too. */
  lemma UncutIsNormal(input: Text)
    ensures NormalForm(Uncut(input)) && !EndsInSpace(Uncut(input))
  {
    StripLeavesNoTag(input);
    CollapsedIsNormal(Cleaned(StripTags(input)));
    TrimmedIsNormal(Collapsed(Cleaned(StripTags(input))));
  }

  /** The normal form by its code units. */
  lemma NormalUnits(r: Text)
    requires NormalForm(r)
    ensures forall i :: 0 <= i < |r| ==> 0x20 <= r[i] && r[i] != 0x7f
    ensures forall i, j :: 0 <= i < j < |r| ==> !(r[i] == 0x3c && r[j] == 0x3e)
    ensures forall i :: 0 <= i < |r| && r[i] == 0x20 ==> i > 0 && (i + 1 < |r| ==> r[i+1] != 0x20)
    ensures forall i :: 0 <= i < |r| ==>
              r[i] !in {0xa0, 0x1680, 0x2028, 0x2029, 0x202f, 0x205f, 0x3000, 0xfeff} && !(0x2000 <= r[i] <= 0x200a)
  {
    forall i | 0 <= i < |r| && r[i] == 0x20 ensures i > 0 && (i + 1 < |r| ==> r[i+1] != 0x20) {
      assert IsSpace(r[i]) && !DoubleSpaceAt(r, i);
    }
  }

  /** The normal form of every result. */
  lemma ResultIsNormal(input: Text, max: nat)
    ensures |Normalised(input, max)| <= max && NormalForm(Normalised(input, max))
    ensures var r := Normalised(input, max);
            && (forall i :: 0 <= i < |r| ==> 0x20 <= r[i] && r[i] != 0x7f)
            && (forall i, j :: 0 <= i < j < |r| ==> !(r[i] == 0x3c && r[j] == 0x3e))
            && (forall i :: 0 <= i < |r| && r[i] == 0x20 ==> i > 0 && (i + 1 < |r| ==> r[i+1] != 0x20))
            && (forall i :: 0 <= i < |r| ==>
                  !(0x2000 <= r[i] <= 0x200a)
                  && r[i] !in {0xa0, 0x1680, 0x2028, 0x2029, 0x202f, 0x205f, 0x3000, 0xfeff})
  {
    UncutIsNormal(input);
    var u := Uncut(input);
    if |u| > max {
      PartSingleSpaced(u, 0, max);
      assert u[0..max] == u[..max];
    }
    NormalUnits(Normalised(input, max));
  }

  // ---------------------------------------------------------------- what is kept

  predicate IsBlank(u: Unit) {
    IsControl(u) || IsSpace(u)
  }

  predicate IsWord(w: Text) {
    w != [] && forall i :: 0 <= i < |w| ==> !IsBlank(w[i])
  }

  /** The maximal runs of units that are neither white space nor control characters. */
  function Words(s: Text): (ws: seq<Text>)
    ensures s != [] && !IsBlank(s[0]) ==> ws != []
    ensures forall i :: 0 <= i < |ws| ==> IsWord(ws[i])
  {
    if s == [] then []
    else
      var rest := Words(s[1..]);
      if IsBlank(s[0]) then rest
      else if |s| == 1 || IsBlank(s[1]) then [[s[0]]] + rest
      else [[s[0]] + rest[0]] + rest[1..]
  }

  function Joined(ws: seq<Text>): Text {
    if ws == [] then [] else if |ws| == 1 then ws[0] else ws[0] + ([SPACE] + Joined(ws[1..]))
  }

  lemma {:induction false} WordsCleaned(s: Text)
    ensures Words(Cleaned(s)) == Words(s)
  {
    if s != [] {
      WordsCleaned(s[1..]);
      assert Cleaned(s)[1..] == Cleaned(s[1..]);
    }
  }

  lemma {:induction false} WordsSkip(s: Text, k: nat)
    requires k <= |s| && forall i :: 0 <= i < k ==> IsBlank(s[i])
    ensures Words(s) == Words(s[k..])
  {
    if k == 0 {
      assert s[0..] == s;
    } else {
      WordsSkip(s[1..], k - 1);
      assert s[1..][k-1..] == s[k..];
    }
  }

  lemma JoinedLonger(u: Unit, ws: seq<Text>)
    requires ws != []
    ensures Joined([[u] + ws[0]] + ws[1..]) == [u] + Joined(ws)
    ensures Joined([[u]] + ws) == [u] + ([SPACE] + Joined(ws))
  {
    assert ([[u] + ws[0]] + ws[1..])[1..] == ws[1..];
    assert ([[u]] + ws)[1..] == ws;
  }

  /** A space if the text ends in white space. */
  function EndSpace(s: Text): Text {
    if s != [] && IsSpace(s[|s|-1]) then [SPACE] else []
  }

  /** After a word of one unit: the white space behind it, and what follows. */
  lemma CollapsedGap(s: Text, k: nat)
    requires Printable(s) && |s| > 1 && !IsSpace(s[0]) && IsSpace(s[1]) && k == Leading(s, 1)
    ensures k >= 2 && Collapsed(s) == [s[0]] + ([SPACE] + Collapsed(s[k..])) && Words(s) == [[s[0]]] + Words(s[k..])
  {
    var rest := s[1..];
    WordsSkip(rest, k - 1);
    assert rest[k-1..] == s[k..];
    LeadingShift(s, 1);
  }

  lemma {:induction false} LeadingShift(s: Text, i: nat)
    requires 1 <= i <= |s|
    ensures Leading(s[1..], i - 1) == Leading(s, i) - 1
    decreases |s| - i
  {
    if i < |s| && IsSpace(s[i]) { LeadingShift(s, i + 1); }
  }

  lemma CollapsedRun(s: Text)
    requires Printable(s) && |s| > 1 && !IsSpace(s[0]) && !IsSpace(s[1])
    ensures Collapsed(s) == [s[0]] + Collapsed(s[1..])
    ensures var ws := Words(s[1..]); ws != [] && Words(s) == [[s[0]] + ws[0]] + ws[1..]
  {}

  lemma EndSpaceRest(s: Text, k: nat)
    requires k < |s|
    ensures EndSpace(s[k..]) == EndSpace(s)
  {}

  lemma Regrouped(a: Text, b: Text, c: Text, d: Text)
    ensures a + (b + (c + d)) == a + (b + c) + d && a + (c + d) == a + c + d
  {}

  /** One more unit ahead of joined words, with a space between or without. */
  lemma JoinedMore(u: Unit, ws: seq<Text>, end: Text)
    requires ws != []
    ensures [u] + ([SPACE] + (Joined(ws) + end)) == Joined([[u]] + ws) + end
    ensures [u] + (Joined(ws) + end) == Joined([[u] + ws[0]] + ws[1..]) + end
  {
    JoinedLonger(u, ws);
    Regrouped([u], [SPACE], Joined(ws), end);
  }

  lemma JoinedOne(u: Unit)
    ensures Joined([[u]]) == [u] && Words([]) == [] && EndSpace([]) == []
  {}

  ghost predicate Joins(s: Text) {
    Collapsed(s) == Joined(Words(s)) + EndSpace(s)
  }

  lemma JoinsAcrossGap(s: Text, k: nat)
    requires Printable(s) && |s| > 1 && !IsSpace(s[0]) && IsSpace(s[1]) && k == Leading(s, 1) && k < |s|
    requires Joins(s[k..])
    ensures Joins(s)
  {
    CollapsedGap(s, k);
    EndSpaceRest(s, k);
    assert Words(s[k..]) != [];
    JoinedMore(s[0], Words(s[k..]), EndSpace(s));
  }

  lemma JoinsBeforeGap(s: Text)
    requires Printable(s) && |s| > 1 && !IsSpace(s[0]) && IsSpace(s[1]) && Leading(s, 1) == |s|
    ensures Joins(s)
  {
    CollapsedGap(s, |s|);
    assert s[|s|..] == [] && IsSpace(s[|s|-1]);
    JoinedOne(s[0]);
  }

  lemma JoinsAcrossRun(s: Text)
    requires Printable(s) && |s| > 1 && !IsSpace(s[0]) && !IsSpace(s[1]) && Joins(s[1..])
    ensures Joins(s)
  {
    CollapsedRun(s);
    EndSpaceRest(s, 1);
    JoinedMore(s[0], Words(s[1..]), EndSpace(s));
  }

  lemma JoinsOne(s: Text)
    requires Printable(s) && |s| == 1 && !IsSpace(s[0])
    ensures Joins(s)
  {
    JoinedOne(s[0]);
    assert s[1..] == [];
  }

  /** Collapsing leaves the words with single spaces between, and one behind if there was any. */
  lemma {:induction false} CollapsedJoins(s: Text)
    requires Printable(s) && (s != [] ==> !IsSpace(s[0]))
    ensures Joins(s)
    decreases |s|
  {
    if |s| > 1 && IsSpace(s[1]) {
      var k := Leading(s, 1);
      if k < |s| {
        CollapsedJoins(s[k..]);
        JoinsAcrossGap(s, k);
      } else {
        JoinsBeforeGap(s);
      }
    } else if |s| > 1 {
      CollapsedJoins(s[1..]);
      JoinsAcrossRun(s);
    } else if |s| == 1 {
      JoinsOne(s);
    }
  }

  lemma {:induction false} JoinedEnds(ws: seq<Text>)
    requires forall i :: 0 <= i < |ws| ==> IsWord(ws[i])
    ensures var j := Joined(ws); ws != [] ==> j != [] && !IsSpace(j[0]) && !IsSpace(j[|j|-1])
  {
    if ws != [] {
      assert IsWord(ws[0]);
      if |ws| > 1 { JoinedEnds(ws[1..]); }
    }
  }

  /** Padding is trimmed away. */
  lemma TrimPadding(s: Text, front: Text, j: Text, end: Text)
    requires s == front + (j + end) && front in {[], [SPACE]} && end in {[], [SPACE]}
    requires j != [] ==> !IsSpace(j[0]) && !IsSpace(j[|j|-1])
    ensures Trim(s) == j
  {
    if j != [] {
      assert s[|front|] == j[0] && s[|front| + |j| - 1] == j[|j|-1];
      assert Leading(s, 0) == |front|;
      assert Trailing(s, |s|) == |front| + |j|;
    }
  }

  lemma CollapsedFront(s: Text)
    ensures var k := Leading(s, 0); Collapsed(s) == (if k > 0 then [SPACE] else []) + Collapsed(s[k..])
  {
    if s != [] && IsSpace(s[0]) {
      assert Leading(s, 0) == Leading(s, 1);
    } else {
      assert s[0..] == s;
    }
  }

  lemma TrimJoins(s: Text)
    requires Printable(s)
    ensures Trim(Collapsed(s)) == Joined(Words(s))
  {
    var k := Leading(s, 0);
    WordsSkip(s, k);
    CollapsedFront(s);
    CollapsedJoins(s[k..]);
    JoinedEnds(Words(s));
    TrimPadding(Collapsed(s), if k > 0 then [SPACE] else [], Joined(Words(s)), EndSpace(s[k..]));
  }

  /** Before the cut the result is the words of the text without tags, joined by single spaces. */
  lemma WordsAreKept(input: Text)
    ensures Uncut(input) == Joined(Words(StripTags(input)))
  {
    WordsCleaned(StripTags(input));
    TrimJoins(Cleaned(StripTags(input)));
  }

  // ---------------------------------------------------------------- what prints

  /** Neither a control character nor white space, code by code. */
  predicate Prints(u: Unit) {
    && 0x20 < u && u != 0x7f && u != 0xa0 && u != 0x1680 && !(0x2000 <= u <= 0x200a)
    && u != 0x2028 && u != 0x2029 && u != 0x202f && u != 0x205f && u != 0x3000 && u != 0xfeff
  }

  /** What prints of a text. */
  function Ink(s: Text): Text {
    if s == [] then [] else (if Prints(s[0]) then [s[0]] else []) + Ink(s[1..])
  }

  lemma {:induction false} InkConcat(a: Text, b: Text)
    ensures Ink(a + b) == Ink(a) + Ink(b)
  {
    if a == [] {
      assert a + b == b;
    } else {
      assert (a + b)[0] == a[0] && (a + b)[1..] == a[1..] + b;
      InkConcat(a[1..], b);
    }
  }

  lemma {:induction false} NoInk(s: Text)
    requires forall i :: 0 <= i < |s| ==> !Prints(s[i])
    ensures Ink(s) == []
  {
    if s != [] { NoInk(s[1..]); }
  }

  lemma {:induction false} InkCleaned(s: Text)
    ensures Ink(Cleaned(s)) == Ink(s)
  {
    if s != [] {
      InkCleaned(s[1..]);
      assert Cleaned(s)[1..] == Cleaned(s[1..]);
    }
  }

  lemma {:induction false} InkCollapsed(s: Text)
    ensures Ink(Collapsed(s)) == Ink(s)
    decreases |s|
  {
    if s != [] {
      if IsSpace(s[0]) {
        var n := Leading(s, 1);
        InkCollapsed(s[n..]);
        NoInk(s[..n]);
        InkConcat(s[..n], s[n..]);
        assert s[..n] + s[n..] == s;
        assert Collapsed(s)[1..] == Collapsed(s[n..]);
      } else {
        InkCollapsed(s[1..]);
        assert Collapsed(s)[1..] == Collapsed(s[1..]);
      }
    }
  }

  /** A margin without ink may go. */
  lemma InkFrom(s: Text, i: nat)
    requires i <= |s| && forall k :: 0 <= k < i ==> !Prints(s[k])
    ensures Ink(s[i..]) == Ink(s)
  {
    NoInk(s[..i]);
    InkConcat(s[..i], s[i..]);
    assert s[..i] + s[i..] == s;
  }

  lemma InkUpTo(s: Text, j: nat)
    requires j <= |s| && forall k :: j <= k < |s| ==> !Prints(s[k])
    ensures Ink(s[..j]) == Ink(s)
  {
    var b := s[j..];
    forall k | 0 <= k < |b| ensures !Prints(b[k]) { assert b[k] == s[j+k]; }
    NoInk(b);
    InkConcat(s[..j], b);
    assert s[..j] + b == s;
  }

  lemma InkTrimmed(s: Text)
    ensures Ink(Trim(s)) == Ink(s)
  {
    var i, j := Leading(s, 0), Trailing(s, |s|);
    if i < j {
      InkUpTo(s, j);
      InkFrom(s[..j], i);
      assert s[..j][i..] == s[i..j];
    } else {
      NoInk(s);
    }
  }

  /** Everything that prints outside the tags is kept, in order, up to the cut. */
  lemma InkIsKept(input: Text)
    ensures Ink(Uncut(input)) == Ink(StripTags(input))
  {
    InkCleaned(StripTags(input));
    InkCollapsed(Cleaned(StripTags(input)));
    InkTrimmed(Collapsed(Cleaned(StripTags(input))));
  }

  // ---------------------------------------------------------------- again

  lemma {:induction false} CollapseNothing(s: Text)
    requires SingleSpaced(s)
    ensures Collapsed(s) == s
    decreases |s|
  {
    if s != [] {
      PartSingleSpaced(s, 1, |s|);
      assert s[1..|s|] == s[1..];
      CollapseNothing(s[1..]);
      if IsSpace(s[0]) { assert !DoubleSpaceAt(s, 0); }
      assert s == [s[0]] + s[1..];
    }
  }

  lemma TrimNormal(s: Text)
    requires NormalForm(s)
    ensures Trim(s) == if EndsInSpace(s) then s[..|s|-1] else s
  {
    assert Leading(s, 0) == 0;
    var n := |s|;
    assert n >= 2 ==> !DoubleSpaceAt(s, n - 2);
    assert Trailing(s, n) == if EndsInSpace(s) then n - 1 else n;
  }

  /** On a text in normal form only a space at the end is trimmed. */
  lemma AgainOnNormal(s: Text)
    requires NormalForm(s)
    ensures Uncut(s) == if EndsInSpace(s) then s[..|s|-1] else s
  {
    StripNothing(s);
    assert Cleaned(s) == s;
    CollapseNothing(s);
    TrimNormal(s);
  }

  lemma WhereTheCutFalls(input: Text, max: nat)
    ensures EndsInSpace(Normalised(input, max)) <==> 0 < max < |Uncut(input)| && Uncut(input)[max-1] == SPACE
  {
    UncutIsNormal(input);
  }

  /** Applied again, the normaliser only removes one possible space at the end, which is there
      exactly when the cut fell behind one; a third time changes nothing. */
  lemma Again(input: Text, max: nat)
    ensures var once, twice := Normalised(input, max), Normalised(Normalised(input, max), max);
            && twice == (if EndsInSpace(once) then once[..|once|-1] else once)
            && (twice == once <==> !(0 < max < |Uncut(input)| && Uncut(input)[max-1] == SPACE))
  {
    ResultIsNormal(input, max);
    AgainOnNormal(Normalised(input, max));
    WhereTheCutFalls(input, max);
  }

  lemma ThirdTime(input: Text, max: nat)
    ensures var twice := Normalised(Normalised(input, max), max);
            Normalised(twice, max) == twice
  {
    var once := Normalised(input, max);
    ResultIsNormal(input, max);
    AgainOnNormal(once);
    UncutIsNormal(once);
    assert Normalised(once, max) == Uncut(once);
    AgainOnNormal(Uncut(once));
  }

  // ---------------------------------------------------------------- surrogate pairs

  /** A high surrogate is followed by a low one, and a low one, unless it comes first, follows a high one. */
  predicate PairedAt(s: Text, i: nat)
    requires i < |s|
  {
    (IsHigh(s[i]) ==> i + 1 < |s| && IsLow(s[i+1])) && (i > 0 && IsLow(s[i]) ==> IsHigh(s[i-1]))
  }

  predicate Paired(s: Text) {
    forall i :: 0 <= i < |s| ==> PairedAt(s, i)
  }

  predicate WellFormed(s: Text) {
    Paired(s) && (s != [] ==> !IsLow(s[0]))
  }

  /** The part from `k` on is paired, and well formed unless it begins amid a pair. */
  lemma PairedRest(s: Text, k: nat)
    requires Paired(s) && k <= |s|
    ensures Paired(s[k..]) && (0 < k < |s| && !IsHigh(s[k-1]) ==> !IsLow(s[k]))
  {
    var t := s[k..];
    forall i | 0 <= i < |t| ensures PairedAt(t, i) { assert PairedAt(s, k + i); }
    assert k < |s| ==> PairedAt(s, k);
  }

  lemma PairedCons(u: Unit, rest: Text)
    requires Paired(rest) && if IsHigh(u) then rest != [] && IsLow(rest[0]) else rest != [] ==> !IsLow(rest[0])
    ensures Paired([u] + rest)
  {
    var t := [u] + rest;
    forall i | 0 <= i < |t| ensures PairedAt(t, i) {
      assert i > 0 ==> PairedAt(rest, i - 1);
    }
  }

  /** `t` begins as `s` does, or with a space where `s` begins with no surrogate. */
  predicate BeginsAs(t: Text, s: Text) {
    if s == [] then t == [] else t != [] && (t[0] == s[0] || (t[0] == SPACE && !IsLow(s[0]) && !IsHigh(s[0])))
  }

  /** A step that keeps the first unit and rewrites what follows keeps pairs. */
  lemma PairedStep(s: Text, rest: Text)
    requires Paired(s) && s != [] && Paired(rest) && BeginsAs(rest, s[1..])
    ensures Paired([s[0]] + rest)
  {
    assert PairedAt(s, 0);
    assert |s| > 1 ==> PairedAt(s, 1) && s[1..][0] == s[1];
    PairedCons(s[0], rest);
  }

  /** A step that puts a space where `s` begins and rewrites a later part keeps pairs. */
  lemma PairedSpace(s: Text, k: nat, rest: Text)
    requires Paired(s) && 0 < k <= |s| && !IsHigh(s[k-1]) && Paired(rest) && BeginsAs(rest, s[k..])
    ensures Paired([SPACE] + rest)
  {
    PairedRest(s, k);
    assert k < |s| ==> s[k..][0] == s[k];
    PairedCons(SPACE, rest);
  }

  lemma {:induction false} StripKeepsPairs(s: Text)
    requires Paired(s)
    ensures Paired(StripTags(s)) && BeginsAs(StripTags(s), s)
  {
    if s != [] {
      if s[0] == LESS && GREATER in s {
        var k := IndexOf(s, GREATER) + 1;
        PairedRest(s, k);
        StripKeepsPairs(s[k..]);
        PairedSpace(s, k, StripTags(s[k..]));
      } else {
        PairedRest(s, 1);
        StripKeepsPairs(s[1..]);
        PairedStep(s, StripTags(s[1..]));
      }
    }
  }

  lemma {:induction false} CollapseKeepsPairs(s: Text)
    requires Paired(s)
    ensures Paired(Collapsed(s)) && BeginsAs(Collapsed(s), s)
    decreases |s|
  {
    if s != [] {
      if IsSpace(s[0]) {
        var k := Leading(s, 1);
        PairedRest(s, k);
        CollapseKeepsPairs(s[k..]);
        PairedSpace(s, k, Collapsed(s[k..]));
      } else {
        PairedRest(s, 1);
        CollapseKeepsPairs(s[1..]);
        PairedStep(s, Collapsed(s[1..]));
      }
    }
  }

  lemma CleanKeepsPairs(s: Text)
    requires Paired(s)
    ensures Paired(Cleaned(s)) && BeginsAs(Cleaned(s), s)
  {
    forall i | 0 <= i < |s| ensures PairedAt(Cleaned(s), i) { assert PairedAt(s, i); }
  }

  /** A part of a well-formed text that begins at a character is well formed exactly when it
      does not end amid a pair. */
  lemma PartWellFormed(s: Text, k: nat, n: nat)
    requires WellFormed(s) && k <= n <= |s| && (k > 0 ==> !IsHigh(s[k-1]))
    ensures WellFormed(s[k..n]) <==> n == k || !IsHigh(s[n-1])
  {
    var t := s[k..n];
    if n > k {
      assert PairedAt(s, k);
      assert t[|t|-1] == s[n-1];
      if IsHigh(s[n-1]) { assert !PairedAt(t, |t|-1); }
      forall i | 0 <= i < |t| && !IsHigh(s[n-1]) ensures PairedAt(t, i) { assert PairedAt(s, k + i); }
    }
  }

  lemma TrimKeepsPairs(s: Text)
    requires WellFormed(s)
    ensures WellFormed(Trim(s))
  {
    var i, j := Leading(s, 0), Trailing(s, |s|);
    if i < j {
      assert PairedAt(s, j - 1);
      PartWellFormed(s, i, j);
    }
  }

  lemma UncutKeepsPairs(input: Text)
    requires WellFormed(input)
    ensures WellFormed(Uncut(input))
  {
    StripKeepsPairs(input);
    CleanKeepsPairs(StripTags(input));
    CollapseKeepsPairs(Cleaned(StripTags(input)));
    TrimKeepsPairs(Collapsed(Cleaned(StripTags(input))));
  }

  /** Well-formed UTF-16 stays well formed unless the cut falls between the two units of a pair. */
  lemma OnlyTheCutBreaksPairs(input: Text, max: nat)
    requires WellFormed(input)
    ensures WellFormed(Normalised(input, max)) <==> !(0 < max < |Uncut(input)| && IsHigh(Uncut(input)[max-1]))
  {
    UncutKeepsPairs(input);
    var u := Uncut(input);
    if max < |u| {
      PartWellFormed(u, 0, max);
      assert u[0..max] == u[..max];
    }
  }

  /** The cut does fall behind a space: "a b" at two units keeps it, and a second pass does not. */
  lemma AgainWitness()
    ensures Normalised([0x61, SPACE, 0x62], 2) == [0x61, SPACE] && Normalised([0x61, SPACE], 2) == [0x61]
  {
    var s: Text := [0x61, SPACE, 0x62];
    assert NormalForm(s) && NormalForm([0x61, SPACE]);
    AgainOnNormal(s);
    AgainOnNormal([0x61, SPACE]);
  }

  /** The cut does fall inside a pair: one character of two units, at one unit. */
  lemma CutPairWitness()
    ensures WellFormed([0xd83d, 0xde00]) && !WellFormed(Normalised([0xd83d, 0xde00], 1))
  {
    var s: Text := [0xd83d, 0xde00];
    assert NormalForm(s) && PairedAt(s, 0) && PairedAt(s, 1);
    AgainOnNormal(s);
    OnlyTheCutBreaksPairs(s, 1);
  }
}

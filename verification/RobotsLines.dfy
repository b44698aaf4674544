/** Lines and verdicts of robots.txt as they are written, with the case of agents and keys. */
module RobotsLines {
  import opened Robots
  import opened RobotsReading
  import opened RobotsText
  import opened Strings

  // ---------------------------------------------------------------- a line

  predicate Blank(w: string) {
    forall i :: 0 <= i < |w| ==> IsSpace(w[i])
  }

  lemma {:induction false} TrimStartOf(w: string, x: string)
    requires Blank(w) && (x == "" || !IsSpace(x[0]))
    ensures TrimStart(w + x) == x
    decreases |w|
  {
    if w == "" {
      assert w + x == x;
    } else {
      assert (w + x)[0] == w[0] && (w + x)[1..] == w[1..] + x;
      TrimStartOf(w[1..], x);
    }
  }

  lemma {:induction false} TrimEndOf(x: string, w: string)
    requires Blank(w) && (x == "" || !IsSpace(x[|x|-1]))
    ensures TrimEnd(x + w) == x
    decreases |w|
  {
    if w == "" {
      assert x + w == x;
    } else {
      var s := x + w;
      assert s[|s|-1] == w[|w|-1] && s[..|s|-1] == x + w[..|w|-1];
      TrimEndOf(x, w[..|w|-1]);
    }
  }

  /** White space around a text is cut off. */
  lemma TrimOf(w: string, x: string, w': string)
    requires Blank(w) && Blank(w') && Trimmed(x)
    ensures Trim(w + x + w') == x
  {
    if x == "" {
      assert w + x + w' == w + w' && Blank(w + w');
      TrimBlank(w + w');
    } else {
      assert w + x + w' == w + (x + w');
      TrimStartOf(w, x + w');
      TrimEndOf(x, w');
    }
  }

  /** A comment, if any. */
  predicate Comment(tail: string) {
    tail == "" || tail[0] == '#'
  }

  lemma BeforeComment(line: string, tail: string)
    requires '#' !in line && Comment(tail)
    ensures Split(line + tail, '#')[0] == line
  {
    if tail == "" {
      assert line + tail == line;
      SplitNone(line, '#');
    } else {
      assert line + tail == line + ['#'] + tail[1..];
      SplitFirst(line, '#', tail[1..]);
    }
  }

  /** What a line says, with its agent as it is written. */
  function WrittenRecord(raw: string): Record {
    var line := Trim(Split(raw, '#')[0]);
    var i := IndexOf(line, ':');
    if i == |line| then Nothing
    else
      var value := Trim(line[i+1..]);
      match KeyOf(Lower(Trim(line[..i])))
      case UserAgent => Agent(value)
      case RuleKey(kind) => Says(Rule(kind, value))
      case Unknown => Nothing
  }

  function Fold(r: Record): Record {
    if r.Agent? then Agent(Lower(r.name)) else r
  }

  lemma RecordIsFolded(raw: string)
    ensures RecordOf(raw) == Fold(WrittenRecord(raw))
  {}

  /** A key, a colon and a value, with white space around both and a comment behind them. */
  function Line(w1: string, key: string, w2: string, w3: string, value: string, w4: string, tail: string): string {
    w1 + (key + w2 + ":" + w3 + value) + w4 + tail
  }

  predicate Spaced(w1: string, key: string, w2: string, w3: string, value: string, w4: string, tail: string) {
    && Blank(w1) && Blank(w2) && Blank(w3) && Blank(w4) && Comment(tail)
    && key != "" && Trimmed(key) && ':' !in key && '#' !in key && Trimmed(value) && '#' !in value
  }

  lemma BlankPlain(w: string)
    requires Blank(w)
    ensures ':' !in w && '#' !in w
  {
    forall i | 0 <= i < |w| ensures w[i] != ':' && w[i] != '#' { assert IsSpace(w[i]); }
  }

  /** The line without its margins and comment. */
  function Core(key: string, w2: string, w3: string, value: string): string {
    key + w2 + ":" + if value == "" then "" else w3 + value
  }

  lemma CoreTrimmed(key: string, w2: string, w3: string, value: string)
    requires key != "" && Trimmed(key) && Trimmed(value)
    ensures Trimmed(Core(key, w2, w3, value))
  {
    var core := Core(key, w2, w3, value);
    assert core[0] == key[0];
    if value == "" { assert core[|core|-1] == ':'; } else { assert core[|core|-1] == value[|value|-1]; }
  }

  lemma LineIsCore(w1: string, key: string, w2: string, w3: string, value: string, w4: string, tail: string)
    ensures var end := if value == "" then w3 + w4 else w4;
            Line(w1, key, w2, w3, value, w4, tail) == w1 + Core(key, w2, w3, value) + end + tail
  {
    var core := key + w2 + ":" + w3 + value;
    if value == "" {
      assert core == Core(key, w2, w3, value) + w3;
    } else {
      assert core == Core(key, w2, w3, value);
    }
    assert w1 + (Core(key, w2, w3, value) + w3) + w4 == w1 + Core(key, w2, w3, value) + (w3 + w4);
  }

  lemma LineTrims(w1: string, key: string, w2: string, w3: string, value: string, w4: string, tail: string)
    requires Spaced(w1, key, w2, w3, value, w4, tail)
    ensures Trim(Split(Line(w1, key, w2, w3, value, w4, tail), '#')[0]) == Core(key, w2, w3, value)
  {
    BlankPlain(w1);
    BlankPlain(w2);
    BlankPlain(w3);
    BlankPlain(w4);
    var end := if value == "" then w3 + w4 else w4;
    LineIsCore(w1, key, w2, w3, value, w4, tail);
    BeforeComment(w1 + Core(key, w2, w3, value) + end, tail);
    CoreTrimmed(key, w2, w3, value);
    TrimOf(w1, Core(key, w2, w3, value), end);
  }

  lemma CoreParts(key: string, w2: string, w3: string, value: string)
    requires Blank(w2) && Blank(w3) && key != "" && Trimmed(key) && ':' !in key && Trimmed(value)
    ensures var core := Core(key, w2, w3, value);
            var i := IndexOf(core, ':');
            i < |core| && Trim(core[..i]) == key && Trim(core[i+1..]) == value
  {
    BlankPlain(w2);
    var rest := if value == "" then "" else w3 + value;
    KeyEnds(key + w2, rest);
    TrimOf("", key, w2);
    assert "" + key + w2 == key + w2;
    if value != "" {
      TrimOf(w3, value, "");
      assert w3 + value + "" == w3 + value;
    }
  }

  /** Without its margins the line is cut at its colon into key and value. */
  lemma LineParts(w1: string, key: string, w2: string, w3: string, value: string, w4: string, tail: string)
    requires Spaced(w1, key, w2, w3, value, w4, tail)
    ensures var line := Trim(Split(Line(w1, key, w2, w3, value, w4, tail), '#')[0]);
            var i := IndexOf(line, ':');
            i < |line| && Trim(line[..i]) == key && Trim(line[i+1..]) == value
  {
    LineTrims(w1, key, w2, w3, value, w4, tail);
    CoreParts(key, w2, w3, value);
  }

  lemma FoldedIs(key: string, word: string)
    requires forall i :: 0 <= i < |word| ==> !('A' <= word[i] <= 'Z')
    ensures Lower(key) == word <==> SameText(key, word)
  {
    LowerIff(key, word);
    LowerSame(word);
  }

  lemma KeyIs(key: string)
    ensures KeyOf(Lower(key)) ==
            if SameText(key, "user-agent") then UserAgent
            else if SameText(key, "disallow") then RuleKey(Disallow)
            else if SameText(key, "allow") then RuleKey(Allow)
            else Unknown
  {
    FoldedIs(key, "user-agent");
    FoldedIs(key, "disallow");
    FoldedIs(key, "allow");
  }

  /** The three keys count in any case of their letters, the value as it stands, and every other
      key says nothing. */
  lemma LineSays(w1: string, key: string, w2: string, w3: string, value: string, w4: string, tail: string)
    requires Spaced(w1, key, w2, w3, value, w4, tail)
    ensures WrittenRecord(Line(w1, key, w2, w3, value, w4, tail)) ==
            if SameText(key, "user-agent") then Agent(value)
            else if SameText(key, "disallow") then Says(Rule(Disallow, value))
            else if SameText(key, "allow") then Says(Rule(Allow, value))
            else Nothing
  {
    LineParts(w1, key, w2, w3, value, w4, tail);
    KeyIs(key);
  }

  /** A line without a colon says nothing. */
  lemma NoColon(line: string, tail: string)
    requires '#' !in line && ':' !in line && Comment(tail)
    ensures WrittenRecord(line + tail).Nothing?
  {
    BeforeComment(line, tail);
    TrimInside(line);
  }

  lemma {:induction false} TrimStartInside(s: string)
    ensures forall c :: c in TrimStart(s) ==> c in s
    decreases |s|
  {
    if s != "" && IsSpace(s[0]) { TrimStartInside(s[1..]); }
  }

  lemma {:induction false} TrimEndInside(s: string)
    ensures forall c :: c in TrimEnd(s) ==> c in s
    decreases |s|
  {
    if s != "" && IsSpace(s[|s|-1]) { TrimEndInside(s[..|s|-1]); }
  }

  lemma TrimInside(s: string)
    ensures forall c :: c in Trim(s) ==> c in s
  {
    TrimStartInside(s);
    TrimEndInside(TrimStart(s));
  }

  // ---------------------------------------------------------------- the groups as they are written

  function WrittenOf(lines: seq<string>): seq<Record> {
    if lines == [] then []
    else
      var last := WrittenRecord(lines[|lines|-1]);
      WrittenOf(lines[..|lines|-1]) + if last.Nothing? then [] else [last]
  }

  /** What the lines of the file say, in order. */
  function Written(text: string): seq<Record> {
    WrittenOf(Split(text, '\n'))
  }

  function FoldAll(rs: seq<Record>): (f: seq<Record>)
    ensures |f| == |rs| && forall i :: 0 <= i < |rs| ==> f[i] == Fold(rs[i])
  {
    seq(|rs|, i requires 0 <= i < |rs| => Fold(rs[i]))
  }

  lemma {:induction false} RecordsAreFolded(lines: seq<string>)
    ensures RecordsOf(lines) == FoldAll(WrittenOf(lines)) && Nothing !in WrittenOf(lines)
  {
    if lines != [] {
      var front, last := lines[..|lines|-1], lines[|lines|-1];
      RecordsAreFolded(front);
      RecordIsFolded(last);
      var w := WrittenRecord(last);
      assert FoldAll(WrittenOf(front) + [w]) == FoldAll(WrittenOf(front)) + [Fold(w)];
      assert WrittenOf(front) + [] == WrittenOf(front);
    }
  }

  function LowerEach(names: seq<string>): (r: seq<string>)
    ensures |r| == |names| && forall i :: 0 <= i < |names| ==> r[i] == Lower(names[i])
  {
    seq(|names|, i requires 0 <= i < |names| => Lower(names[i]))
  }

  /** The groups of the file, with their agents as they are written. */
  function WrittenGroups(text: string): seq<Group> {
    RecordsAreFolded(Split(text, '\n'));
    GroupsOf(Written(text))
  }

  function FoldGroup(g: Group): Group {
    Group(LowerEach(g.agents), g.rules)
  }

  /** The same groups with the agents folded. */
  ghost predicate FoldsTo(gs: seq<Group>, fs: seq<Group>) {
    |gs| == |fs| && forall i :: 0 <= i < |gs| ==> fs[i] == FoldGroup(gs[i])
  }

  lemma LowerMore(names: seq<string>, name: string)
    ensures LowerEach(names + [name]) == LowerEach(names) + [Lower(name)]
    ensures LowerEach([]) == [] && LowerEach([name]) == [Lower(name)]
  {}

  lemma AppendFolds(gs: seq<Group>, fs: seq<Group>, g: Group, f: Group)
    requires FoldsTo(gs, fs) && f == FoldGroup(g)
    ensures FoldsTo(gs + [g], fs + [f])
  {}

  lemma LastFolds(gs: seq<Group>, fs: seq<Group>, g: Group, f: Group)
    requires FoldsTo(gs, fs) && gs != [] && f == FoldGroup(g)
    ensures FoldsTo(gs[..|gs|-1] + [g], fs[..|fs|-1] + [f])
  {}

  lemma ExtendedIs(gs: seq<Group>, r: Record)
    requires !r.Nothing?
    ensures Extended(gs, r) ==
            if r.Says? && gs != [] then gs[..|gs|-1] + [Group(gs[|gs|-1].agents, gs[|gs|-1].rules + [r.rule])]
            else if r.Agent? && gs != [] && gs[|gs|-1].rules == []
            then gs[..|gs|-1] + [Group(gs[|gs|-1].agents + [r.name], [])]
            else gs + [if r.Says? then Group([], [r.rule]) else Group([r.name], [])]
  {}

  lemma ExtendedFolds(gs: seq<Group>, fs: seq<Group>, r: Record)
    requires FoldsTo(gs, fs) && !r.Nothing?
    ensures FoldsTo(Extended(gs, r), Extended(fs, Fold(r)))
  {
    ExtendedIs(gs, r);
    ExtendedIs(fs, Fold(r));
    var name := if r.Agent? then r.name else "";
    if gs != [] {
      var g, f := gs[|gs|-1], fs[|fs|-1];
      assert f == FoldGroup(g);
      LowerMore(g.agents, name);
      if r.Says? {
        LastFolds(gs, fs, Group(g.agents, g.rules + [r.rule]), Group(f.agents, f.rules + [r.rule]));
      } else if g.rules == [] {
        LastFolds(gs, fs, Group(g.agents + [name], []), Group(f.agents + [Lower(name)], []));
      } else {
        AppendFolds(gs, fs, Group([name], []), Group([Lower(name)], []));
      }
    } else {
      LowerMore([], name);
      if r.Says? {
        AppendFolds(gs, fs, Group([], [r.rule]), Group([], [r.rule]));
      } else {
        AppendFolds(gs, fs, Group([name], []), Group([Lower(name)], []));
      }
    }
  }

  lemma {:induction false} GroupsFold(rs: seq<Record>)
    requires Nothing !in rs
    ensures Nothing !in FoldAll(rs) && FoldsTo(GroupsOf(rs), GroupsOf(FoldAll(rs)))
  {
    if rs != [] {
      var front, last := rs[..|rs|-1], rs[|rs|-1];
      GroupsFold(front);
      assert FoldAll(rs)[..|rs|-1] == FoldAll(front);
      ExtendedFolds(GroupsOf(front), GroupsOf(FoldAll(front)), last);
    }
  }

  lemma GroupsAreFolded(text: string)
    ensures FoldsTo(WrittenGroups(text), FileGroups(text))
    ensures Shaped(WrittenGroups(text)) && Printed(WrittenGroups(text)) == Written(text)
  {
    RecordsAreFolded(Split(text, '\n'));
    GroupsFold(Written(text));
    GroupsOfPrints(Written(text));
  }

  // ---------------------------------------------------------------- the verdict

  /** The group is for this agent, in whatever case; rules ahead of the first agent are for `*`. */
  ghost predicate IsFor(g: Group, agent: string) {
    if g.agents == [] then agent == "*" else exists a :: a in g.agents && SameText(a, agent)
  }

  ghost predicate RootSaid(gs: seq<Group>, agent: string, kind: Kind) {
    exists i, r :: 0 <= i < |gs| && IsFor(gs[i], agent) && r in gs[i].rules
                   && r.kind == kind && r.path in {"/", "/*"}
  }

  ghost predicate HasRules(gs: seq<Group>, agent: string) {
    exists i :: 0 <= i < |gs| && IsFor(gs[i], agent) && gs[i].rules != []
  }

  lemma IsForIff(g: Group, f: Group, agent: string)
    requires f == FoldGroup(g)
    ensures Lower(agent) in Naming(f.agents) <==> IsFor(g, agent)
  {
    LowerIff(agent, "*");
    LowerSame("*");
    if a :| a in g.agents && SameText(a, agent) {
      var k :| 0 <= k < |g.agents| && g.agents[k] == a;
      LowerIff(a, agent);
      assert f.agents[k] == Lower(a);
    }
    if f.agents != [] && Lower(agent) in f.agents {
      var k :| 0 <= k < |f.agents| && f.agents[k] == Lower(agent);
      LowerIff(g.agents[k], agent);
      assert g.agents[k] in g.agents;
    }
  }

  lemma ForEachIff(gs: seq<Group>, fs: seq<Group>, agent: string)
    requires FoldsTo(gs, fs)
    ensures forall i :: 0 <= i < |gs| ==> (Lower(agent) in Naming(fs[i].agents) <==> IsFor(gs[i], agent))
  {
    forall i | 0 <= i < |gs| ensures Lower(agent) in Naming(fs[i].agents) <==> IsFor(gs[i], agent) {
      IsForIff(gs[i], fs[i], agent);
    }
  }

  lemma RootSaidIff(gs: seq<Group>, fs: seq<Group>, agent: string, kind: Kind)
    requires FoldsTo(gs, fs)
    ensures RootRuleFor(fs, Lower(agent), kind) <==> RootSaid(gs, agent, kind)
  {
    ForEachIff(gs, fs, agent);
    if i :| 0 <= i < |fs| && Lower(agent) in Naming(fs[i].agents) && HasRootRule(fs[i].rules, kind) {
      var r :| r in fs[i].rules && RootRule(r, kind);
      assert IsFor(gs[i], agent) && r in gs[i].rules;
    }
    if i, r :| 0 <= i < |gs| && IsFor(gs[i], agent) && r in gs[i].rules && r.kind == kind && r.path in {"/", "/*"} {
      assert RootRule(r, kind) && HasRootRule(fs[i].rules, kind);
    }
  }

  lemma HasRulesIff(gs: seq<Group>, fs: seq<Group>, agent: string)
    requires FoldsTo(gs, fs)
    ensures Governed(fs, Lower(agent)) <==> HasRules(gs, agent)
  {
    ForEachIff(gs, fs, agent);
    if Governed(fs, Lower(agent)) {
      var i :| 0 <= i < |fs| && Governs(fs[i], Lower(agent));
      assert IsFor(gs[i], agent) && gs[i].rules != [];
    }
    if HasRules(gs, agent) {
      var i :| 0 <= i < |gs| && IsFor(gs[i], agent) && gs[i].rules != [];
      assert Governs(fs[i], Lower(agent));
    }
  }

  /** For every file and every bot, on the groups as they are written and whatever the case of
      names: it is blocked exactly if some group for it, or for `*` if no group for it has a
      rule, disallows the root and none allows it. */
  lemma VerdictAsWritten(text: string, bot: string)
    ensures var gs := WrittenGroups(text);
            var agent := if HasRules(gs, bot) then bot else "*";
            IsBlocked(Parsed(text), bot) <==> RootSaid(gs, agent, Disallow) && !RootSaid(gs, agent, Allow)
  {
    var gs, fs := WrittenGroups(text), FileGroups(text);
    GroupsAreFolded(text);
    VerdictByGroups(text, bot);
    LowerSame("*");
    HasRulesIff(gs, fs, bot);
    RootSaidIff(gs, fs, bot, Disallow);
    RootSaidIff(gs, fs, bot, Allow);
    RootSaidIff(gs, fs, "*", Disallow);
    RootSaidIff(gs, fs, "*", Allow);
  }

  // ---------------------------------------------------------------- one bot shut out

  lemma AgentKey()
    ensures SameText("User-agent", "user-agent") && Trimmed("User-agent")
    ensures ':' !in "User-agent" && '#' !in "User-agent" && '\n' !in "User-agent: "
  {}

  lemma DisallowKey()
    ensures SameText("Disallow", "disallow") && !SameText("Disallow", "user-agent") && Trimmed("Disallow")
    ensures ':' !in "Disallow" && '#' !in "Disallow" && '\n' !in "Disallow: /"
  {}

  lemma PlainLine(key: string, value: string)
    requires key != "" && Trimmed(key) && ':' !in key && '#' !in key && Trimmed(value) && '#' !in value
    ensures Line("", key, "", " ", value, "", "") == key + ": " + value && Spaced("", key, "", " ", value, "", "")
  {
    assert key + "" + ":" + " " + value == key + ": " + value;
  }

  lemma NamedLine(name: string)
    requires Trimmed(name) && '#' !in name && '\n' !in name
    ensures WrittenRecord("User-agent: " + name) == Agent(name) && '\n' !in "User-agent: " + name
  {
    AgentKey();
    PlainLine("User-agent", name);
    assert "User-agent" + ": " == "User-agent: ";
    LineSays("", "User-agent", "", " ", name, "", "");
  }

  lemma RootLineIs()
    ensures WrittenRecord("Disallow: /") == Says(Rule(Disallow, "/")) && '\n' !in "Disallow: /"
  {
    DisallowKey();
    PlainLine("Disallow", "/");
    assert "Disallow" + ": " + "/" == "Disallow: /";
    LineSays("", "Disallow", "", " ", "/", "", "");
  }

  lemma TwoLines(a: string, b: string)
    requires '\n' !in a && '\n' !in b && !WrittenRecord(a).Nothing? && !WrittenRecord(b).Nothing?
    ensures Written(a + "\n" + b) == [WrittenRecord(a), WrittenRecord(b)]
  {
    SplitFirst(a, '\n', b);
    SplitNone(b, '\n');
    assert a + "\n" + b == a + ['\n'] + b;
    assert [a, b][..1] == [a] && [a][..0] == [];
    assert WrittenOf([a]) == [] + [WrittenRecord(a)];
    assert WrittenOf([a, b]) == WrittenOf([a]) + [WrittenRecord(b)];
  }

  lemma ShutOutRecords(name: string)
    requires Trimmed(name) && '#' !in name && '\n' !in name
    ensures Written("User-agent: " + name + "\n" + "Disallow: /") == [Agent(name), Says(Rule(Disallow, "/"))]
  {
    var a, b := "User-agent: " + name, "Disallow: /";
    NamedLine(name);
    RootLineIs();
    TwoLines(a, b);
  }

  /** A bot that is shut out by name is blocked, in whatever case the file writes it. */
  lemma ShutOutByName(name: string, bot: string)
    requires Trimmed(name) && '#' !in name && '\n' !in name && SameText(name, bot)
    ensures IsBlocked(Parsed("User-agent: " + name + "\n" + "Disallow: /"), bot)
  {
    var text := "User-agent: " + name + "\n" + "Disallow: /";
    var rule := Rule(Disallow, "/");
    ShutOutRecords(name);
    VerdictAsWritten(text, bot);
    var gs := WrittenGroups(text);
    GroupsStep([], Agent(name));
    GroupsStep([Agent(name)], Says(rule));
    assert [] + [Agent(name)] == [Agent(name)] && [Agent(name)] + [Says(rule)] == [Agent(name), Says(rule)];
    assert Extended([], Agent(name)) == [Group([name], [])];
    assert [Group([name], [])][..0] == [] && [] + [rule] == [rule];
    assert gs == [] + [Group([name], [rule])] == [Group([name], [rule])];
    assert name in gs[0].agents && IsFor(gs[0], bot) && rule in gs[0].rules;
    assert HasRules(gs, bot) && RootSaid(gs, bot, Disallow) && !RootSaid(gs, bot, Allow);
  }

  /** In the ordinary spelling. */
  lemma CapitalsWitness()
    ensures IsBlocked(Parsed("User-agent: GPTBot" + "\n" + "Disallow: /"), "GPTBot")
  {
    var name := "GPTBot";
    ShutOutByName(name, name);
    assert "User-agent: " + name == "User-agent: GPTBot";
  }
}

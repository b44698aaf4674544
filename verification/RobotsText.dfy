/** What the reader of robots.txt does to whole files: noise, concatenation, printing and verdicts. */
module RobotsText {
  import opened Robots
  import opened RobotsReading
  import opened Strings

  // ---------------------------------------------------------------- lines that say nothing

  lemma {:induction false} RecordsConcat(a: seq<string>, b: seq<string>)
    ensures RecordsOf(a + b) == RecordsOf(a) + RecordsOf(b)
  {
    if b == [] {
      assert a + b == a;
    } else {
      var front := b[..|b|-1];
      assert (a + b)[..|a + b|-1] == a + front;
      RecordsConcat(a, front);
      var r := RecordOf(b[|b|-1]);
      Regroup(RecordsOf(a), RecordsOf(front), if r.Nothing? then [] else [r]);
    }
  }

  lemma RecordsOfLines(a: string, b: string)
    ensures Records(a + "\n" + b) == Records(a) + Records(b)
  {
    SplitConcat(a, '\n', b);
    RecordsConcat(Split(a, '\n'), Split(b, '\n'));
  }

  lemma RecordsOfLine(line: string)
    requires '\n' !in line
    ensures Records(line) == if RecordOf(line).Nothing? then [] else [RecordOf(line)]
  {
    SplitNone(line, '\n');
    OneRecord(line);
  }

  lemma OneRecord(line: string)
    ensures RecordsOf([line]) == if RecordOf(line).Nothing? then [] else [RecordOf(line)]
  {
    RecordsConcat([], [line]);
    assert [line][..0] == [];
    assert [] + [line] == [line];
  }

  /** A line that says nothing may stand anywhere (section 2.2.4 of RFC 9309). */
  lemma NoiseIsIgnored(a: string, noise: string, b: string)
    requires '\n' !in noise && RecordOf(noise).Nothing?
    ensures Records(a + "\n" + noise + "\n" + b) == Records(a + "\n" + b)
    ensures Parsed(a + "\n" + noise + "\n" + b) == Parsed(a + "\n" + b)
  {
    RecordsOfLine(noise);
    var front := a + "\n" + noise;
    RecordsOfLines(a, noise);
    assert Records(front) == Records(a);
    RecordsOfLines(front, b);
    RecordsOfLines(a, b);
  }

  lemma NoiseAtTheEnds(a: string, noise: string)
    requires '\n' !in noise && RecordOf(noise).Nothing?
    ensures Parsed(noise + "\n" + a) == Parsed(a) && Parsed(a + "\n" + noise) == Parsed(a)
  {
    RecordsOfLine(noise);
    RecordsOfLines(a, noise);
    RecordsOfLines(noise, a);
    assert [] + Records(a) == Records(a) == Records(a) + [];
  }

  /** A comment at the end of a line changes nothing, and a line of nothing else says nothing. */
  lemma CommentIsIgnored(line: string, comment: string)
    ensures RecordOf(line + "#" + comment) == RecordOf(line)
    ensures RecordOf("#" + comment).Nothing?
  {
    SplitConcat(line, '#', comment);
    SplitConcat("", '#', comment);
    assert "" + "#" + comment == "#" + comment;
  }

  lemma {:induction false} TrimBlank(line: string)
    requires forall i :: 0 <= i < |line| ==> IsSpace(line[i])
    ensures Trim(line) == ""
  {
    if line != "" { TrimBlank(line[1..]); }
  }

  lemma BlankIsIgnored(line: string)
    requires forall i :: 0 <= i < |line| ==> IsSpace(line[i])
    ensures RecordOf(line).Nothing?
  {
    forall i | 0 <= i < |line| ensures line[i] != '#' { assert IsSpace(line[i]); }
    SplitNone(line, '#');
    TrimBlank(line);
  }

  // ---------------------------------------------------------------- one file after another

  lemma {:induction false} GroupsConcat(a: seq<Group>, b: seq<Group>, agent: string, kind: Kind)
    ensures Printed(a + b) == Printed(a) + Printed(b)
    ensures Reading(a + b, agent, kind) == Reading(a, agent, kind) + Reading(b, agent, kind)
  {
    if b == [] {
      assert a + b == a;
    } else {
      var front, g := b[..|b|-1], b[|b|-1];
      assert (a + b)[..|a + b|-1] == a + front;
      GroupsConcat(a, front, agent, kind);
      Regroup(Printed(a), Printed(front), AgentRecords(g.agents));
      Regroup(Printed(a), Printed(front) + AgentRecords(g.agents), RuleRecords(g.rules));
      Regroup(Reading(a, agent, kind), Reading(front, agent, kind),
        PathsFor(g.rules, kind, Count(Naming(g.agents), agent)));
    }
  }

  lemma GovernedConcat(a: seq<Group>, b: seq<Group>, agent: string)
    ensures Governed(a + b, agent) <==> Governed(a, agent) || Governed(b, agent)
  {
    var c := a + b;
    if Governed(a, agent) { var i :| 0 <= i < |a| && Governs(a[i], agent); assert Governs(c[i], agent); }
    if Governed(b, agent) { var i :| 0 <= i < |b| && Governs(b[i], agent); assert Governs(c[|a| + i], agent); }
    if Governed(c, agent) {
      var i :| 0 <= i < |c| && Governs(c[i], agent);
      if i < |a| { assert Governs(a[i], agent); } else { assert Governs(b[i - |a|], agent); }
    }
  }

  lemma {:induction false} FirstPrinted(gs: seq<Group>)
    requires Shaped(gs) && gs != []
    ensures Printed(gs) != [] && (Printed(gs)[0].Agent? ==> gs[0].agents != [])
  {
    var front := gs[..|gs|-1];
    assert ShapedAt(gs, |gs|-1);
    if front != [] {
      forall i | 0 <= i < |front| ensures ShapedAt(front, i) { assert ShapedAt(gs, i); }
      FirstPrinted(front);
    } else {
      assert Printed(front) == [];
    }
  }

  lemma LastPrinted(gs: seq<Group>)
    requires Shaped(gs) && gs != [] && gs[|gs|-1].rules == []
    ensures Printed(gs) != [] && Printed(gs)[|Printed(gs)|-1].Agent?
  {
    var g := gs[|gs|-1];
    assert ShapedAt(gs, |gs|-1);
    assert Printed(gs)[|Printed(gs)|-1] == AgentRecords(g.agents)[|g.agents|-1];
  }

  /** Nothing of the first file is still open where the second begins. */
  predicate Separate(a: string, b: string) {
    && (Records(a) != [] ==> Records(a)[|Records(a)|-1].Says?)
    && (Records(b) != [] ==> Records(b)[0].Agent?)
  }

  lemma ConcatShaped(a: seq<Group>, b: seq<Group>)
    requires Shaped(a) && Shaped(b) && (a != [] ==> a[|a|-1].rules != []) && (b != [] ==> b[0].agents != [])
    ensures Shaped(a + b)
  {
    var c := a + b;
    forall i | 0 <= i < |c| ensures ShapedAt(c, i) {
      if i < |a| { assert ShapedAt(a, i); } else { assert ShapedAt(b, i - |a|); }
    }
  }

  lemma SeparateShaped(a: string, b: string)
    requires Separate(a, b)
    ensures Shaped(FileGroups(a) + FileGroups(b))
  {
    var ga, gb := FileGroups(a), FileGroups(b);
    ReaderReads(a, "*", Allow);
    ReaderReads(b, "*", Allow);
    if ga != [] && ga[|ga|-1].rules == [] { LastPrinted(ga); }
    if gb != [] { FirstPrinted(gb); }
    ConcatShaped(ga, gb);
  }

  /** Reading one file after another gives, for every agent, the rules of the one and then of the other. */
  lemma ParseOfBoth(a: string, b: string, agent: string, kind: Kind)
    requires Separate(a, b)
    ensures Paths(Parsed(a + "\n" + b), agent, kind) == Paths(Parsed(a), agent, kind) + Paths(Parsed(b), agent, kind)
    ensures agent in Parsed(a + "\n" + b) <==> agent in Parsed(a) || agent in Parsed(b)
  {
    var ga, gb := FileGroups(a), FileGroups(b);
    ReaderReads(a, agent, kind);
    ReaderReads(b, agent, kind);
    SeparateShaped(a, b);
    GroupsConcat(ga, gb, agent, kind);
    GovernedConcat(ga, gb, agent);
    RecordsOfLines(a, b);
    MachineReads(ga + gb, agent, kind);
  }

  // ---------------------------------------------------------------- printing

  function LineOf(r: Record): string {
    match r
    case Agent(name) => "user-agent" + ":" + name
    case Says(rule) => if rule.kind.Disallow? then "disallow" + ":" + rule.path else "allow" + ":" + rule.path
    case Nothing => ""
  }

  /** What one line can carry. */
  predicate OneLine(value: string) {
    Trimmed(value) && '#' !in value && '\n' !in value
  }

  predicate Writable(r: Record) {
    match r
    case Agent(name) => OneLine(name) && Lower(name) == name
    case Says(rule) => OneLine(rule.path)
    case Nothing => false
  }

  lemma KeyUncut(line: string)
    requires Trimmed(line) && '#' !in line
    ensures Trim(Split(line, '#')[0]) == line
  {
    SplitNone(line, '#');
    TrimTrimmed(line);
  }

  lemma KeyEnds(key: string, value: string)
    requires ':' !in key
    ensures var line := key + ":" + value;
            IndexOf(line, ':') == |key| && line[..|key|] == key && line[|key|+1..] == value
  {
    var line := key + ":" + value;
    assert line[|key|] == ':';
    assert forall i :: 0 <= i < |key| ==> line[i] == key[i];
  }

  lemma KeyLine(key: string, value: string)
    requires key != "" && Trimmed(key) && OneLine(value) && forall i :: 0 <= i < |key| ==>
      key[i] != ':' && key[i] != '#' && key[i] != '\n'
    ensures '\n' !in key + ":" + value && RecordOf(key + ":" + value) == RecordFor(KeyOf(Lower(key)), value)
  {
    var line := key + ":" + value;
    assert '#' !in line && '\n' !in line;
    KeyUncut(line);
    KeyEnds(key, value);
    TrimTrimmed(key);
    TrimTrimmed(value);
  }

  lemma AgentReadsBack(name: string)
    requires OneLine(name) && Lower(name) == name
    ensures '\n' !in "user-agent" + ":" + name && RecordOf("user-agent" + ":" + name) == Agent(name)
  {
    LowerSame("user-agent");
    KeyLine("user-agent", name);
  }

  lemma DisallowReadsBack(path: string)
    requires OneLine(path)
    ensures '\n' !in "disallow" + ":" + path && RecordOf("disallow" + ":" + path) == Says(Rule(Disallow, path))
  {
    LowerSame("disallow");
    KeyLine("disallow", path);
  }

  lemma AllowReadsBack(path: string)
    requires OneLine(path)
    ensures '\n' !in "allow" + ":" + path && RecordOf("allow" + ":" + path) == Says(Rule(Allow, path))
  {
    LowerSame("allow");
    KeyLine("allow", path);
  }

  lemma LineReadsBack(r: Record)
    requires Writable(r)
    ensures '\n' !in LineOf(r) && RecordOf(LineOf(r)) == r
  {
    match r
    case Agent(name) => AgentReadsBack(name);
    case Says(rule) =>
      if rule.kind.Disallow? { DisallowReadsBack(rule.path); } else { AllowReadsBack(rule.path); }
  }

  /** The records, a line each. */
  function TextOf(records: seq<Record>): string {
    if records == [] then "" else TextOf(records[..|records|-1]) + "\n" + LineOf(records[|records|-1])
  }

  lemma AddLine(text: string, line: string)
    requires '\n' !in line && !RecordOf(line).Nothing?
    ensures Records(text + "\n" + line) == Records(text) + [RecordOf(line)]
  {
    RecordsOfLines(text, line);
    RecordsOfLine(line);
  }

  lemma AddRecord(text: string, r: Record)
    requires Writable(r)
    ensures Records(text + "\n" + LineOf(r)) == Records(text) + [r]
  {
    LineReadsBack(r);
    AddLine(text, LineOf(r));
  }

  /** Reading undoes printing. */
  lemma {:induction false} RecordsOfText(records: seq<Record>)
    requires forall r :: r in records ==> Writable(r)
    ensures Records(TextOf(records)) == records
  {
    if records == [] {
      RecordsOfLine("");
      BlankIsIgnored("");
    } else {
      var front, last := records[..|records|-1], records[|records|-1];
      RecordsOfText(front);
      assert last in records;
      AddRecord(TextOf(front), last);
      assert front + [last] == records;
    }
  }

  // ---------------------------------------------------------------- a printed map of groups

  function RulesOfKind(kind: Kind, paths: seq<string>): (rules: seq<Rule>)
    ensures |rules| == |paths| && forall i :: 0 <= i < |paths| ==> rules[i] == Rule(kind, paths[i])
  {
    seq(|paths|, i requires 0 <= i < |paths| => Rule(kind, paths[i]))
  }

  /** A group per agent, its disallowed paths first. */
  function GroupFor(agent: string, rules: Rules): Group {
    Group([agent], RulesOfKind(Disallow, rules.disallow) + RulesOfKind(Allow, rules.allow))
  }

  function GroupsFor(groups: Groups, order: seq<string>): (gs: seq<Group>)
    requires forall a :: a in order ==> a in groups
    ensures |gs| == |order| && forall i :: 0 <= i < |order| ==>
      order[i] in groups && gs[i] == GroupFor(order[i], groups[order[i]])
  {
    seq(|order|, i requires 0 <= i < |order| => assert order[i] in order; GroupFor(order[i], groups[order[i]]))
  }

  predicate Distinct(order: seq<string>) {
    forall i, j :: 0 <= i < j < |order| ==> order[i] != order[j]
  }

  /** A map that can be printed in this order: every agent has a rule, and all fits on lines. */
  ghost predicate Printable(groups: Groups, order: seq<string>) {
    && Distinct(order) && (forall a :: a in order <==> a in groups)
    && (forall a :: a in groups ==> Writable(Agent(a)) && (groups[a].disallow != [] || groups[a].allow != []))
    && (forall a, p :: a in groups && (p in groups[a].disallow || p in groups[a].allow) ==> OneLine(p))
  }

  lemma TimesOnce(path: string)
    ensures Times(path, 0) == [] && Times(path, 1) == [path]
  {}

  lemma {:induction false} PathsForNone(rules: seq<Rule>, kind: Kind, times: nat)
    requires times == 0 || forall r :: r in rules ==> r.kind != kind
    ensures PathsFor(rules, kind, times) == []
  {
    if rules != [] {
      PathsForNone(rules[..|rules|-1], kind, times);
      assert rules[|rules|-1] in rules;
    }
  }

  lemma PathsForLast(front: seq<Rule>, last: Rule, kind: Kind, times: nat)
    ensures PathsFor(front + [last], kind, times) ==
            PathsFor(front, kind, times) + Times(last.path, if last.kind == kind then times else 0)
  {
    assert (front + [last])[..|front|] == front;
  }

  lemma RulesOfMore(kind: Kind, front: seq<string>, last: string)
    ensures RulesOfKind(kind, front + [last]) == RulesOfKind(kind, front) + [Rule(kind, last)]
  {}

  lemma {:induction false} PathsForOnce(kind: Kind, paths: seq<string>)
    ensures PathsFor(RulesOfKind(kind, paths), kind, 1) == paths
  {
    if paths != [] {
      var front, last := paths[..|paths|-1], paths[|paths|-1];
      PathsForOnce(kind, front);
      assert front + [last] == paths;
      RulesOfMore(kind, front, last);
      PathsForLast(RulesOfKind(kind, front), Rule(kind, last), kind, 1);
      TimesOnce(last);
    }
  }

  lemma {:induction false} PathsForConcat(a: seq<Rule>, b: seq<Rule>, kind: Kind, times: nat)
    ensures PathsFor(a + b, kind, times) == PathsFor(a, kind, times) + PathsFor(b, kind, times)
  {
    if b == [] {
      assert a + b == a;
    } else {
      var front, last := b[..|b|-1], b[|b|-1];
      assert (a + b)[..|a + b|-1] == a + front;
      PathsForConcat(a, front, kind, times);
      Regroup(PathsFor(a, kind, times), PathsFor(front, kind, times),
        Times(last.path, if last.kind == kind then times else 0));
    }
  }

  /** What a printed group says about an agent. */
  lemma GroupSays(name: string, rules: Rules, agent: string, kind: Kind)
    ensures var g := GroupFor(name, rules);
            PathsFor(g.rules, kind, Count(Naming(g.agents), agent)) ==
            if name != agent then [] else if kind.Disallow? then rules.disallow else rules.allow
  {
    var d, a := RulesOfKind(Disallow, rules.disallow), RulesOfKind(Allow, rules.allow);
    CountOne(name, agent);
    var times := if name == agent then 1 else 0;
    PathsForConcat(d, a, kind, times);
    if name != agent {
      PathsForNone(d, kind, 0);
      PathsForNone(a, kind, 0);
    } else if kind.Disallow? {
      PathsForOnce(Disallow, rules.disallow);
      PathsForNone(a, kind, 1);
    } else {
      PathsForNone(d, kind, 1);
      PathsForOnce(Allow, rules.allow);
    }
  }

  lemma CountOne(name: string, agent: string)
    ensures Count([name], agent) == if name == agent then 1 else 0
  {
    assert [name][..0] == [];
  }

  lemma GroupsForFront(groups: Groups, order: seq<string>)
    requires order != [] && forall a :: a in order ==> a in groups
    ensures GroupsFor(groups, order)[..|order|-1] == GroupsFor(groups, order[..|order|-1])
  {}

  lemma ReadingStep(groups: Groups, order: seq<string>, agent: string, kind: Kind)
    requires order != [] && forall a :: a in order ==> a in groups
    ensures var front, last := order[..|order|-1], order[|order|-1];
            Reading(GroupsFor(groups, order), agent, kind) ==
            Reading(GroupsFor(groups, front), agent, kind) + (if last == agent then Paths(groups, agent, kind) else [])
  {
    GroupsForFront(groups, order);
    var last := order[|order|-1];
    assert last in order;
    GroupSays(last, groups[last], agent, kind);
  }

  lemma DistinctLast(order: seq<string>, agent: string)
    requires Distinct(order) && order != []
    ensures var front, last := order[..|order|-1], order[|order|-1];
            Distinct(front) && last !in front && (agent in order <==> agent in front || agent == last)
  {
    assert order == order[..|order|-1] + [order[|order|-1]];
  }

  lemma {:induction false} ReadingOfPrinted(groups: Groups, order: seq<string>, agent: string, kind: Kind)
    requires Distinct(order) && forall a :: a in order ==> a in groups
    ensures Reading(GroupsFor(groups, order), agent, kind) == if agent in order then Paths(groups, agent, kind) else []
  {
    if order != [] {
      DistinctLast(order, agent);
      ReadingOfPrinted(groups, order[..|order|-1], agent, kind);
      ReadingStep(groups, order, agent, kind);
    }
  }

  lemma {:induction false} PrintedWritable(gs: seq<Group>)
    requires forall g, a :: g in gs && a in g.agents ==> Writable(Agent(a))
    requires forall g, r :: g in gs && r in g.rules ==> Writable(Says(r))
    ensures forall r :: r in Printed(gs) ==> Writable(r)
  {
    if gs != [] {
      PrintedWritable(gs[..|gs|-1]);
      var g := gs[|gs|-1];
      assert forall r :: r in AgentRecords(g.agents) ==> r.Agent? && r.name in g.agents;
      assert forall r :: r in RuleRecords(g.rules) ==> r.Says? && r.rule in g.rules;
    }
  }

  lemma GroupsForShaped(groups: Groups, order: seq<string>)
    requires Printable(groups, order)
    ensures Shaped(GroupsFor(groups, order))
    ensures forall r :: r in Printed(GroupsFor(groups, order)) ==> Writable(r)
    ensures forall agent :: Governed(GroupsFor(groups, order), agent) <==> agent in groups
  {
    var gs := GroupsFor(groups, order);
    forall i | 0 <= i < |gs| ensures ShapedAt(gs, i) { assert order[i] in order; }
    forall g, r | g in gs && r in g.rules ensures Writable(Says(r)) {
      var i :| 0 <= i < |gs| && gs[i] == g;
      assert order[i] in order;
      assert r.path in groups[order[i]].disallow || r.path in groups[order[i]].allow;
    }
    forall g, a | g in gs && a in g.agents ensures Writable(Agent(a)) {
      var i :| 0 <= i < |gs| && gs[i] == g;
      assert order[i] in order && a == order[i];
    }
    PrintedWritable(gs);
    forall agent ensures Governed(gs, agent) <==> agent in groups {
      if agent in order { var i :| 0 <= i < |order| && order[i] == agent; assert Governs(gs[i], agent); }
    }
  }

  predicate SameAt(a: Groups, b: Groups, agent: string, kind: Kind) {
    Paths(a, agent, kind) == Paths(b, agent, kind) && (agent in a <==> agent in b)
  }

  lemma SameEverywhere(a: Groups, b: Groups)
    requires forall agent, kind :: SameAt(a, b, agent, kind)
    ensures a == b
  {
    forall agent | agent in a || agent in b ensures agent in a && agent in b && a[agent] == b[agent] {
      assert SameAt(a, b, agent, Disallow) && SameAt(a, b, agent, Allow);
    }
  }

  lemma PrintedPaths(groups: Groups, order: seq<string>, agent: string, kind: Kind)
    requires Printable(groups, order)
    ensures var parsed := After(START, Printed(GroupsFor(groups, order))).groups;
            SameAt(parsed, groups, agent, kind)
  {
    GroupsForShaped(groups, order);
    MachineReads(GroupsFor(groups, order), agent, kind);
    ReadingOfPrinted(groups, order, agent, kind);
  }

  /** Reading a printed map of groups returns the map. */
  lemma MapRoundTrip(groups: Groups, order: seq<string>)
    requires Printable(groups, order)
    ensures Parsed(TextOf(Printed(GroupsFor(groups, order)))) == groups
  {
    var records := Printed(GroupsFor(groups, order));
    forall agent, kind ensures SameAt(After(START, records).groups, groups, agent, kind) {
      PrintedPaths(groups, order, agent, kind);
    }
    SameEverywhere(After(START, records).groups, groups);
    GroupsForShaped(groups, order);
    RecordsOfText(records);
  }

  // ---------------------------------------------------------------- the verdict

  /** A rule of this kind for the root of the site. */
  predicate RootRule(r: Rule, kind: Kind) {
    r.kind == kind && (r.path == "/" || r.path == "/*")
  }

  predicate HasRootRule(rules: seq<Rule>, kind: Kind) {
    exists r :: r in rules && RootRule(r, kind)
  }

  predicate RootRuleFor(gs: seq<Group>, agent: string, kind: Kind) {
    exists i :: 0 <= i < |gs| && agent in Naming(gs[i].agents) && HasRootRule(gs[i].rules, kind)
  }

  lemma RootConcat(a: seq<string>, b: seq<string>)
    ensures Root(a + b) <==> Root(a) || Root(b)
  {
    var c := a + b;
    assert forall i :: 0 <= i < |a| ==> c[i] == a[i];
    assert forall i :: 0 <= i < |b| ==> c[|a| + i] == b[i];
  }

  lemma {:induction false} RootOfTimes(path: string, n: nat)
    ensures Root(Times(path, n)) <==> n > 0 && (path == "/" || path == "/*")
  {
    if n > 0 { RootOfTimes(path, n - 1); RootConcat(Times(path, n - 1), [path]); assert [path][0] == path; }
  }

  lemma {:induction false} RootOfPaths(rules: seq<Rule>, kind: Kind, times: nat)
    ensures Root(PathsFor(rules, kind, times)) <==> times > 0 && HasRootRule(rules, kind)
  {
    if rules != [] {
      var front, last := rules[..|rules|-1], rules[|rules|-1];
      RootOfPaths(front, kind, times);
      var n := if last.kind == kind then times else 0;
      RootOfTimes(last.path, n);
      RootConcat(PathsFor(front, kind, times), Times(last.path, n));
      assert rules == front + [last];
      assert HasRootRule(rules, kind) <==> HasRootRule(front, kind) || RootRule(last, kind);
    }
  }

  lemma {:induction false} CountPositive(names: seq<string>, name: string)
    ensures Count(names, name) > 0 <==> name in names
  {
    if names != [] {
      CountPositive(names[..|names|-1], name);
      assert names == names[..|names|-1] + [names[|names|-1]];
    }
  }

  lemma {:induction false} RootOfReading(gs: seq<Group>, agent: string, kind: Kind)
    ensures Root(Reading(gs, agent, kind)) <==> RootRuleFor(gs, agent, kind)
  {
    if gs != [] {
      var front, g := gs[..|gs|-1], gs[|gs|-1];
      RootOfReading(front, agent, kind);
      var n := Count(Naming(g.agents), agent);
      CountPositive(Naming(g.agents), agent);
      RootOfPaths(g.rules, kind, n);
      RootConcat(Reading(front, agent, kind), PathsFor(g.rules, kind, n));
      RootRuleLast(gs, agent, kind);
    }
  }

  lemma RootRuleLast(gs: seq<Group>, agent: string, kind: Kind)
    requires gs != []
    ensures RootRuleFor(gs, agent, kind) <==>
            RootRuleFor(gs[..|gs|-1], agent, kind) ||
              (agent in Naming(gs[|gs|-1].agents) && HasRootRule(gs[|gs|-1].rules, kind))
  {
    var front := gs[..|gs|-1];
    if RootRuleFor(front, agent, kind) {
      var i :| 0 <= i < |front| && agent in Naming(front[i].agents) && HasRootRule(front[i].rules, kind);
      assert gs[i] == front[i];
    }
    if RootRuleFor(gs, agent, kind) {
      var i :| 0 <= i < |gs| && agent in Naming(gs[i].agents) && HasRootRule(gs[i].rules, kind);
      if i < |front| { assert front[i] == gs[i]; }
    }
  }

  /** A bot is blocked when some group for it, or for `*` if no group with a rule names it,
      disallows the root and none of them allows it: the order of the groups plays no part. */
  lemma VerdictByGroups(text: string, bot: string)
    ensures var gs := FileGroups(text);
            var agent := if Governed(gs, Lower(bot)) then Lower(bot) else "*";
            IsBlocked(Parsed(text), bot) <==> RootRuleFor(gs, agent, Disallow) && !RootRuleFor(gs, agent, Allow)
  {
    var gs := FileGroups(text);
    ReaderReads(text, Lower(bot), Disallow);
    var agent := if Governed(gs, Lower(bot)) then Lower(bot) else "*";
    ReaderReads(text, agent, Disallow);
    ReaderReads(text, agent, Allow);
    RootOfReading(gs, agent, Disallow);
    RootOfReading(gs, agent, Allow);
  }

  predicate Named(gs: seq<Group>, agent: string) {
    exists i :: 0 <= i < |gs| && agent in gs[i].agents
  }

  /** The verdict by the choice of groups in section 2.2.1 of RFC 9309: `*` stands in only for an
      agent that no group names at all. */
  predicate BlockedByNaming(gs: seq<Group>, bot: string) {
    var agent := if Named(gs, Lower(bot)) then Lower(bot) else "*";
    RootRuleFor(gs, agent, Disallow) && !RootRuleFor(gs, agent, Allow)
  }

  lemma RootRuleGoverns(gs: seq<Group>, agent: string, kind: Kind)
    ensures RootRuleFor(gs, agent, kind) ==> Governed(gs, agent)
    ensures Governed(gs, agent) ==> Named(gs, agent) || agent == "*"
  {
    if RootRuleFor(gs, agent, kind) {
      var i :| 0 <= i < |gs| && agent in Naming(gs[i].agents) && HasRootRule(gs[i].rules, kind);
      assert Governs(gs[i], agent);
    }
    if Governed(gs, agent) && agent != "*" {
      var i :| 0 <= i < |gs| && Governs(gs[i], agent);
      assert agent in gs[i].agents;
    }
  }

  /** The reader forgets an agent whose only group holds no rule, so such a bot is judged by `*`:
      it is blocked against section 2.2.1 of RFC 9309 exactly when `*` is. */
  lemma RulelessAgentsFallBack(text: string, bot: string)
    ensures var gs := FileGroups(text);
            IsBlocked(Parsed(text), bot) != BlockedByNaming(gs, bot) <==>
            Named(gs, Lower(bot)) && !Governed(gs, Lower(bot)) && RootRuleFor(gs, "*", Disallow) &&
              !RootRuleFor(gs, "*", Allow)
    ensures BlockedByNaming(FileGroups(text), bot) ==> IsBlocked(Parsed(text), bot)
  {
    var gs := FileGroups(text);
    VerdictByGroups(text, bot);
    RootRuleGoverns(gs, Lower(bot), Disallow);
    RootRuleGoverns(gs, Lower(bot), Allow);
  }

  lemma ThreeRecords(a: string, b: string, c: string)
    requires '\n' !in a && '\n' !in b && '\n' !in c
    requires !RecordOf(a).Nothing? && !RecordOf(b).Nothing? && !RecordOf(c).Nothing?
    ensures Records(a + "\n" + b + "\n" + c) == [RecordOf(a), RecordOf(b), RecordOf(c)]
  {
    RecordsOfLine(a);
    AddLine(a, b);
    AddLine(a + "\n" + b, c);
  }

  lemma GroupsStep(front: seq<Record>, r: Record)
    requires Nothing !in front && !r.Nothing?
    ensures GroupsOf(front + [r]) == Extended(GroupsOf(front), r)
  {
    assert (front + [r])[..|front|] == front;
  }

  lemma ThreeGroups(first: string, rule: Rule, last: string)
    ensures GroupsOf([Agent(first), Says(rule), Agent(last)]) == [Group([first], [rule]), Group([last], [])]
  {
    GroupsStep([], Agent(first));
    GroupsStep([Agent(first)], Says(rule));
    GroupsStep([Agent(first), Says(rule)], Agent(last));
    assert [] + [Agent(first)] == [Agent(first)] && [Agent(first)] + [Says(rule)] == [Agent(first), Says(rule)];
    assert [Agent(first), Says(rule)] + [Agent(last)] == [Agent(first), Says(rule), Agent(last)];
    assert Extended([], Agent(first)) == [Group([first], [])];
    assert [Group([first], [])][..0] == [] && [] + [rule] == [rule];
    assert Extended([Group([first], [])], Says(rule)) == [] + [Group([first], [rule])] == [Group([first], [rule])];
  }

  lemma EmptyGroupVerdict(gs: seq<Group>, agent: string, rule: Rule)
    requires gs == [Group(["*"], [rule]), Group([agent], [])] && agent != "*" && RootRule(rule, Disallow)
    ensures Named(gs, agent) && !Governed(gs, agent) && RootRuleFor(gs, "*", Disallow) && !RootRuleFor(gs, "*", Allow)
  {
    assert agent in gs[1].agents;
    assert rule in gs[0].rules && "*" in Naming(gs[0].agents) && HasRootRule(gs[0].rules, Disallow);
  }

  /** The verdicts do differ: a bot whose own group is empty, beside a `*` that is shut out. */
  lemma FallBackWitness()
    ensures var text := "user-agent:*" + "\n" + "disallow:/" + "\n" + "user-agent:gptbot";
            IsBlocked(Parsed(text), "GPTBot") && !BlockedByNaming(FileGroups(text), "GPTBot")
  {
    var text := "user-agent:*" + "\n" + "disallow:/" + "\n" + "user-agent:gptbot";
    var rule := Rule(Disallow, "/");
    WitnessRecords("user-agent:*", "disallow:/", "user-agent:gptbot");
    ThreeGroups("*", rule, "gptbot");
    LowerOfBot();
    EmptyGroupVerdict(FileGroups(text), "gptbot", rule);
    RulelessAgentsFallBack(text, "GPTBot");
  }

  lemma LowerOfBot()
    ensures Lower("GPTBot") == "gptbot"
  {}

  lemma StarLine()
    ensures '\n' !in "user-agent:*" && RecordOf("user-agent:*") == Agent("*")
  {
    assert "user-agent" + ":" + "*" == "user-agent:*";
    AgentReadsBack("*");
  }

  lemma RootLine()
    ensures '\n' !in "disallow:/" && RecordOf("disallow:/") == Says(Rule(Disallow, "/"))
  {
    assert "disallow" + ":" + "/" == "disallow:/";
    DisallowReadsBack("/");
  }

  lemma BotLine()
    ensures '\n' !in "user-agent:gptbot" && RecordOf("user-agent:gptbot") == Agent("gptbot")
  {
    assert "user-agent" + ":" + "gptbot" == "user-agent:gptbot";
    LowerSame("gptbot");
    AgentReadsBack("gptbot");
  }

  lemma WitnessRecords(a: string, b: string, c: string)
    requires a == "user-agent:*" && b == "disallow:/" && c == "user-agent:gptbot"
    ensures Records(a + "\n" + b + "\n" + c) == [Agent("*"), Says(Rule(Disallow, "/")), Agent("gptbot")]
  {
    StarLine();
    RootLine();
    BotLine();
    ThreeRecords(a, b, c);
  }
}

/** The robots.txt reader: a one-pass state machine over the lines of the file. */
module Robots {
  import opened Strings

  datatype Kind = Disallow | Allow

  datatype Rule = Rule(kind: Kind, path: string)

  /** What a line says. A comment, a blank line or an unknown key says nothing. */
  datatype Record = Agent(name: string) | Says(rule: Rule) | Nothing

  datatype Rules = Rules(disallow: seq<string>, allow: seq<string>)

  type Groups = map<string, Rules>

  datatype Key = UserAgent | RuleKey(kind: Kind) | Unknown

  function KeyOf(key: string): Key {
    if key == "user-agent" then UserAgent
    else if key == "disallow" then RuleKey(Disallow)
    else if key == "allow" then RuleKey(Allow)
    else Unknown
  }

  function RecordFor(key: Key, value: string): Record {
    match key
    case UserAgent => Agent(Lower(value))
    case RuleKey(kind) => Says(Rule(kind, value))
    case Unknown => Nothing
  }

  function RecordOf(raw: string): Record {
    var line := Trim(Split(raw, '#')[0]);
    var i := IndexOf(line, ':');
    if i == |line| then Nothing else RecordFor(KeyOf(Lower(Trim(line[..i]))), Trim(line[i+1..]))
  }

  /** What the lines say, in order. */
  function RecordsOf(lines: seq<string>): seq<Record> {
    if lines == [] then []
    else
      var last := RecordOf(lines[|lines|-1]);
      RecordsOf(lines[..|lines|-1]) + if last.Nothing? then [] else [last]
  }

  function Records(text: string): seq<Record> {
    RecordsOf(Split(text, '\n'))
  }

  // ---------------------------------------------------------------- the machine

  datatype State = State(pending: seq<string>, saw: bool, groups: Groups)

  const START := State([], false, map[])

  function Push(groups: Groups, agent: string, rule: Rule): Groups {
    var r := if agent in groups then groups[agent] else Rules([], []);
    groups[agent := if rule.kind.Disallow? then r.(disallow := r.disallow + [rule.path])
      else r.(allow := r.allow + [rule.path])]
  }

  function PushAll(groups: Groups, agents: seq<string>, rule: Rule): Groups {
    if agents == [] then groups
    else Push(PushAll(groups, agents[..|agents|-1], rule), agents[|agents|-1], rule)
  }

  function Step(s: State, r: Record): State {
    match r
    case Agent(name) => State((if s.saw then [] else s.pending) + [name], false, s.groups)
    case Says(rule) => State(s.pending, true, PushAll(s.groups, Naming(s.pending), rule))
    case Nothing => s
  }

  function After(s: State, records: seq<Record>): State {
    if records == [] then s else Step(After(s, records[..|records|-1]), records[|records|-1])
  }

  function Parsed(text: string): Groups {
    After(START, Records(text)).groups
  }

  lemma LineStep(lines: seq<string>, i: nat)
    requires i < |lines|
    ensures After(START, RecordsOf(lines[..i+1])) == Step(After(START, RecordsOf(lines[..i])), RecordOf(lines[i]))
  {
    var said, record := RecordsOf(lines[..i]), RecordOf(lines[i]);
    assert lines[..i+1][..i] == lines[..i];
    assert (said + [record])[..|said|] == said;
    assert said + [] == said;
  }

  /** The loop over the agents a rule is for. */
  method PushRule(before: Groups, agents: seq<string>, kind: Kind, value: string) returns (groups: Groups)
    ensures groups == PushAll(before, agents, Rule(kind, value))
  {
    groups := before;
    for j := 0 to |agents|
      invariant groups == PushAll(before, agents[..j], Rule(kind, value))
    {
      assert agents[..j+1][..j] == agents[..j];
      var rules := if agents[j] in groups then groups[agents[j]] else Rules([], []);
      if kind.Disallow? {
        groups := groups[agents[j] := Rules(rules.disallow + [value], rules.allow)];
      } else {
        groups := groups[agents[j] := Rules(rules.disallow, rules.allow + [value])];
      }
    }
    assert agents[..|agents|] == agents;
  }

  /** The pass over the file ends with what the machine computes. */
  method ParseGroups(robots: string) returns (groups: Groups)
    ensures groups == Parsed(robots)
  {
    groups := map[];
    var pendingAgents: seq<string> := [];
    var sawRuleSinceAgent := false;
    var lines := Split(robots, '\n');
    for i := 0 to |lines|
      invariant State(pendingAgents, sawRuleSinceAgent, groups) == After(START, RecordsOf(lines[..i]))
    {
      LineStep(lines, i);
      var line := Trim(Split(lines[i], '#')[0]);
      if line == "" { continue; }
      var idx := IndexOf(line, ':');
      if idx == |line| { continue; }
      var key := KeyOf(Lower(Trim(line[..idx])));
      var value := Trim(line[idx+1..]);
      if key.UserAgent? {
        if sawRuleSinceAgent {
          pendingAgents := [];
          sawRuleSinceAgent := false;
        }
        pendingAgents := pendingAgents + [Lower(value)];
      } else if key.RuleKey? {
        sawRuleSinceAgent := true;
        groups := PushRule(groups, if |pendingAgents| > 0 then pendingAgents else ["*"], key.kind, value);
      }
    }
    assert lines[..|lines|] == lines;
  }

  predicate Root(paths: seq<string>) {
    exists i :: 0 <= i < |paths| && (paths[i] == "/" || paths[i] == "/*")
  }

  predicate IsBlocked(groups: Groups, bot: string) {
    var agent := if Lower(bot) in groups then Lower(bot) else "*";
    agent in groups && Root(groups[agent].disallow) && !Root(groups[agent].allow)
  }

  // ---------------------------------------------------------------- groups of the file

  /** A group: the agents it is for and their rules (section 2.2.1 of RFC 9309). Rules ahead of
      the first agent form a group that names none. */
  datatype Group = Group(agents: seq<string>, rules: seq<Rule>)

  function Naming(agents: seq<string>): seq<string> {
    if agents == [] then ["*"] else agents
  }

  function AgentRecords(agents: seq<string>): (r: seq<Record>)
    ensures |r| == |agents|
  {
    seq(|agents|, i requires 0 <= i < |agents| => Agent(agents[i]))
  }

  function RuleRecords(rules: seq<Rule>): (r: seq<Record>)
    ensures |r| == |rules|
  {
    seq(|rules|, i requires 0 <= i < |rules| => Says(rules[i]))
  }

  /** The records of the groups, one after the other. */
  function Printed(gs: seq<Group>): seq<Record> {
    if gs == [] then []
    else
      var g := gs[|gs|-1];
      Printed(gs[..|gs|-1]) + AgentRecords(g.agents) + RuleRecords(g.rules)
  }

  /** Only the first group may name no agent and only the last may have no rule, so a group ends
      where an agent follows a rule. */
  predicate ShapedAt(gs: seq<Group>, i: nat)
    requires i < |gs|
  {
    && (i > 0 ==> gs[i].agents != [])
    && (i + 1 < |gs| ==> gs[i].rules != [])
    && (gs[i].agents != [] || gs[i].rules != [])
  }

  predicate Shaped(gs: seq<Group>) {
    forall i :: 0 <= i < |gs| ==> ShapedAt(gs, i)
  }

  /** How often a name occurs. */
  function Count(names: seq<string>, name: string): nat {
    if names == [] then 0
    else Count(names[..|names|-1], name) + if names[|names|-1] == name then 1 else 0
  }

  function Times(path: string, n: nat): seq<string> {
    if n == 0 then [] else Times(path, n - 1) + [path]
  }

  /** The paths of one kind among the rules, each as often as the group names the agent. */
  function PathsFor(rules: seq<Rule>, kind: Kind, times: nat): seq<string> {
    if rules == [] then []
    else
      var last := rules[|rules|-1];
      PathsFor(rules[..|rules|-1], kind, times) + Times(last.path, if last.kind == kind then times else 0)
  }

  /** The rules of one kind for an agent: those of all groups that name it, in order
      (section 2.2.1 of RFC 9309). */
  function Reading(gs: seq<Group>, agent: string, kind: Kind): seq<string> {
    if gs == [] then []
    else
      var g := gs[|gs|-1];
      Reading(gs[..|gs|-1], agent, kind) + PathsFor(g.rules, kind, Count(Naming(g.agents), agent))
  }

  predicate Governs(g: Group, agent: string) {
    g.rules != [] && agent in Naming(g.agents)
  }

  predicate Governed(gs: seq<Group>, agent: string) {
    exists i :: 0 <= i < |gs| && Governs(gs[i], agent)
  }

  function Paths(groups: Groups, agent: string, kind: Kind): seq<string> {
    if agent !in groups then [] else if kind.Disallow? then groups[agent].disallow else groups[agent].allow
  }
}

/** The one-pass reader agrees with the groups of the file. */
module RobotsReading {
  import opened Robots
  import opened Strings

  // ---------------------------------------------------------------- every list of records has its groups

  /** The groups with another last one. */
  function WithLast(gs: seq<Group>, g: Group): (r: seq<Group>)
    requires gs != []
    ensures r != [] && Printed(r) == Printed(gs[..|gs|-1]) + AgentRecords(g.agents) + RuleRecords(g.rules)
  {
    var r := gs[..|gs|-1] + [g];
    assert r[..|r|-1] == gs[..|gs|-1];
    r
  }

  function Append(gs: seq<Group>, g: Group): (r: seq<Group>)
    ensures Printed(r) == Printed(gs) + AgentRecords(g.agents) + RuleRecords(g.rules)
  {
    var r := gs + [g];
    assert r[..|r|-1] == gs;
    r
  }

  function Extended(gs: seq<Group>, r: Record): seq<Group>
    requires !r.Nothing?
  {
    var newest := if r.Says? then Group([], [r.rule]) else Group([r.name], []);
    if gs == [] then Append(gs, newest)
    else
      var g := gs[|gs|-1];
      if r.Says? then WithLast(gs, Group(g.agents, g.rules + [r.rule]))
      else if g.rules == [] then WithLast(gs, Group(g.agents + [r.name], []))
      else Append(gs, newest)
  }

  lemma ExtendedShaped(gs: seq<Group>, r: Record)
    requires Shaped(gs) && !r.Nothing?
    ensures Shaped(Extended(gs, r))
  {
    var n := Extended(gs, r);
    forall i | 0 <= i < |n| ensures ShapedAt(n, i) {
      if i < |gs| { assert ShapedAt(gs, i); }
    }
  }

  lemma ExtendedPrints(gs: seq<Group>, r: Record)
    requires Shaped(gs) && !r.Nothing?
    ensures Printed(Extended(gs, r)) == Printed(gs) + [r]
  {
    if gs != [] {
      var g := gs[|gs|-1];
      var front := Printed(gs[..|gs|-1]);
      if r.Says? {
        assert RuleRecords(g.rules + [r.rule]) == RuleRecords(g.rules) + [r];
        assert front + AgentRecords(g.agents) + (RuleRecords(g.rules) + [r]) ==
          front + AgentRecords(g.agents) + RuleRecords(g.rules) + [r];
      } else if g.rules == [] {
        assert AgentRecords(g.agents + [r.name]) == AgentRecords(g.agents) + [r];
        assert RuleRecords([]) == [];
        assert front + (AgentRecords(g.agents) + [r]) + [] == front + AgentRecords(g.agents) + [] + [r];
      } else {
        assert AgentRecords([r.name]) == [r] && RuleRecords([]) == [];
      }
    } else if r.Says? {
      assert AgentRecords([]) == [] && RuleRecords([r.rule]) == [r];
    } else {
      assert AgentRecords([r.name]) == [r] && RuleRecords([]) == [];
    }
  }

  /** The groups of a list of records. */
  function GroupsOf(records: seq<Record>): seq<Group>
    requires Nothing !in records
  {
    if records == [] then [] else Extended(GroupsOf(records[..|records|-1]), records[|records|-1])
  }

  lemma {:induction false} GroupsOfPrints(records: seq<Record>)
    requires Nothing !in records
    ensures Shaped(GroupsOf(records)) && Printed(GroupsOf(records)) == records
  {
    if records != [] {
      var front, last := records[..|records|-1], records[|records|-1];
      GroupsOfPrints(front);
      ExtendedShaped(GroupsOf(front), last);
      ExtendedPrints(GroupsOf(front), last);
      assert records == front + [last];
    }
  }

  // ---------------------------------------------------------------- the machine over a group

  lemma {:induction false} AfterConcat(s: State, a: seq<Record>, b: seq<Record>)
    ensures After(s, a + b) == After(After(s, a), b)
  {
    if b == [] {
      assert a + b == a;
    } else {
      assert (a + b)[..|a + b|-1] == a + b[..|b|-1];
      AfterConcat(s, a, b[..|b|-1]);
    }
  }

  lemma {:induction false} AfterAgents(s: State, agents: seq<string>)
    requires agents != []
    ensures After(s, AgentRecords(agents)) == State((if s.saw then [] else s.pending) + agents, false, s.groups)
  {
    var records := AgentRecords(agents);
    var front := agents[..|agents|-1];
    assert records[..|records|-1] == AgentRecords(front);
    assert front + [agents[|agents|-1]] == agents;
    if front != [] {
      AfterAgents(s, front);
      Regroup(if s.saw then [] else s.pending, front, [agents[|agents|-1]]);
    }
  }

  lemma Regroup<T>(a: seq<T>, b: seq<T>, c: seq<T>)
    ensures a + (b + c) == a + b + c
  {}

  lemma {:induction false} TimesAdd(path: string, m: nat, n: nat)
    ensures Times(path, m + n) == Times(path, m) + Times(path, n)
  {
    if n > 0 {
      TimesAdd(path, m, n - 1);
      Regroup(Times(path, m), Times(path, n - 1), [path]);
    }
  }

  lemma PushAdds(groups: Groups, name: string, rule: Rule, agent: string, kind: Kind)
    ensures var after := Push(groups, name, rule);
            && Paths(after, agent, kind) == Paths(groups, agent, kind) +
                Times(rule.path, if rule.kind == kind && name == agent then 1 else 0)
            && (agent in after <==> agent in groups || agent == name)
  {
    assert Times(rule.path, 0) == [] && Times(rule.path, 1) == [rule.path];
  }

  /** What pushing one rule adds for an agent. */
  lemma {:induction false} PushAllAdds(groups: Groups, agents: seq<string>, rule: Rule, agent: string, kind: Kind)
    ensures Paths(PushAll(groups, agents, rule), agent, kind) ==
            Paths(groups, agent, kind) + Times(rule.path, if rule.kind == kind then Count(agents, agent) else 0)
    ensures agent in PushAll(groups, agents, rule) <==> agent in groups || agent in agents
  {
    if agents != [] {
      var front, last := agents[..|agents|-1], agents[|agents|-1];
      PushAllAdds(groups, front, rule, agent, kind);
      PushAdds(PushAll(groups, front, rule), last, rule, agent, kind);
      assert agents == front + [last];
      var m := if rule.kind == kind then Count(front, agent) else 0;
      var n := if rule.kind == kind && last == agent then 1 else 0;
      TimesAdd(rule.path, m, n);
      Regroup(Paths(groups, agent, kind), Times(rule.path, m), Times(rule.path, n));
    }
  }

  lemma {:induction false} AfterRules(s: State, rules: seq<Rule>, agent: string, kind: Kind)
    ensures var after := After(s, RuleRecords(rules));
            && after.pending == s.pending && after.saw == (s.saw || rules != [])
            && Paths(after.groups, agent, kind) == Paths(s.groups, agent, kind) +
                PathsFor(rules, kind, Count(Naming(s.pending), agent))
            && (agent in after.groups <==> agent in s.groups || (rules != [] && agent in Naming(s.pending)))
  {
    if rules != [] {
      var front, last := rules[..|rules|-1], rules[|rules|-1];
      AfterRules(s, front, agent, kind);
      assert RuleRecords(rules)[..|rules|-1] == RuleRecords(front);
      var names := Naming(s.pending);
      PushAllAdds(After(s, RuleRecords(front)).groups, names, last, agent, kind);
      Regroup(Paths(s.groups, agent, kind), PathsFor(front, kind, Count(names, agent)),
              Times(last.path, if last.kind == kind then Count(names, agent) else 0));
    }
  }

  // ---------------------------------------------------------------- refinement

  /** The machine stands at the end of these groups. */
  ghost predicate At(s: State, gs: seq<Group>) {
    if gs == [] then s == START else s.pending == gs[|gs|-1].agents && s.saw == (gs[|gs|-1].rules != [])
  }

  /** Over records that fall into these groups the machine computes their reading. */
  lemma {:induction false} MachineReads(gs: seq<Group>, agent: string, kind: Kind)
    requires Shaped(gs)
    ensures var s := After(START, Printed(gs));
            && At(s, gs)
            && Paths(s.groups, agent, kind) == Reading(gs, agent, kind)
            && (agent in s.groups <==> Governed(gs, agent))
  {
    if gs != [] {
      var front, g := gs[..|gs|-1], gs[|gs|-1];
      forall i | 0 <= i < |front| ensures ShapedAt(front, i) { assert ShapedAt(gs, i); }
      MachineReads(front, agent, kind);
      assert ShapedAt(gs, |gs|-1);
      if front != [] { assert ShapedAt(gs, |gs|-2); }
      var s := After(START, Printed(front));
      AfterConcat(START, Printed(front) + AgentRecords(g.agents), RuleRecords(g.rules));
      AfterConcat(START, Printed(front), AgentRecords(g.agents));
      if g.agents != [] { AfterAgents(s, g.agents); } else { assert AgentRecords([]) == []; }
      var t := After(s, AgentRecords(g.agents));
      assert t.pending == g.agents && !t.saw && t.groups == s.groups;
      AfterRules(t, g.rules, agent, kind);
      GovernedLast(gs, agent);
    }
  }

  lemma GovernedLast(gs: seq<Group>, agent: string)
    requires gs != []
    ensures Governed(gs, agent) <==> Governed(gs[..|gs|-1], agent) || Governs(gs[|gs|-1], agent)
  {
    var front := gs[..|gs|-1];
    if Governed(front, agent) { var i :| 0 <= i < |front| && Governs(front[i], agent); assert Governs(gs[i], agent); }
    if Governed(gs, agent) && !Governs(gs[|gs|-1], agent) {
      var i :| 0 <= i < |gs| && Governs(gs[i], agent);
      assert Governs(front[i], agent);
    }
  }

  lemma {:induction false} RecordsSaySomething(lines: seq<string>)
    ensures Nothing !in RecordsOf(lines)
  {
    if lines != [] { RecordsSaySomething(lines[..|lines|-1]); }
  }

  /** The groups of a file. */
  function FileGroups(text: string): seq<Group> {
    RecordsSaySomething(Split(text, '\n'));
    GroupsOf(Records(text))
  }

  /** For every file the reader yields, per agent, the rules of the groups that name it. */
  lemma ReaderReads(text: string, agent: string, kind: Kind)
    ensures Shaped(FileGroups(text)) && Printed(FileGroups(text)) == Records(text)
    ensures Paths(Parsed(text), agent, kind) == Reading(FileGroups(text), agent, kind)
    ensures agent in Parsed(text) <==> Governed(FileGroups(text), agent)
  {
    RecordsSaySomething(Split(text, '\n'));
    GroupsOfPrints(Records(text));
    MachineReads(FileGroups(text), agent, kind);
  }
}

/** The config compiler inside `Run` of graphql/service/config/mutation_utils.go: from database
    rows to the group and node sections of a dae config, and what those sections mean. */
module ConfigCompiler {
  import opened Wrappers
  import opened Text
  import opened Database
  import opened Sequences
  import opened NodeNames
  import opened GroupMembers

  /** The outbound names of a parsed routing section. */
  datatype Routing = Routing(fallback: string, rules: seq<string>)

  datatype Policy = Named(name: string) | Call(name: string, params: seq<Param>)

  /** One emitted group: its name, the node names its filter admits, and its policy. */
  datatype Section = Section(name: string, filter: seq<string>, policy: Policy)

  datatype Emitted = Emitted(groups: seq<Section>, nodes: seq<string>)

  datatype BuildError =
    | GroupsNotDefined(names: seq<string>)
    | InvalidRegex(group: string)
    | EmptyGroup(group: string)
    | FixedGroupTooBig(group: string)

  // ---- dae/utils.go: NecessaryOutbounds ----

  function OutboundOf(rule: string): string
  {
    if rule != "must_rules" && "must_" <= rule then rule[5..] else rule
  }

  /** Exactly the prefix goes, and "must_rules" is itself an outbound. */
  lemma OutboundMeans(x: string)
    ensures x != "rules" ==> OutboundOf("must_" + x) == x
    ensures OutboundOf("must_rules") == "must_rules"
    ensures (forall y :: x != "must_" + y) ==> OutboundOf(x) == x
  {
    assert ("must_" + x)[5..] == x;
    if "must_" <= x { assert x == "must_" + x[5..]; }
  }

  ghost predicate Needed(routing: Routing, name: string)
  {
    name == routing.fallback || exists k :: 0 <= k < |routing.rules| && name == OutboundOf(routing.rules[k])
  }

  method NecessaryOutbounds(routing: Routing) returns (outbounds: seq<string>)
    ensures Distinct(outbounds)
    ensures forall name :: name in outbounds <==> Needed(routing, name)
  {
    outbounds := [routing.fallback];
    for k := 0 to |routing.rules|
      invariant forall name :: name in outbounds <==>
                  name == routing.fallback || exists j :: 0 <= j < k && name == OutboundOf(routing.rules[j])
    {
      var outbound := routing.rules[k];
      if outbound != "must_rules" {
        if "must_" <= outbound {
          outbound := outbound[5..];
        }
      }
      outbounds := outbounds + [outbound];
    }
    outbounds := Deduplicate(outbounds);
  }

  // ---- Finding the groups ----

  predicate Preset(name: string)
  {
    name == "direct" || name == "block" || name == "must_rules"
  }

  /** The rows of the query `name in ?`. */
  function GroupsNamed(table: seq<GroupRow>, names: seq<string>): (r: seq<GroupRow>)
    ensures forall g :: g in r <==> g in table && g.name in names
  {
    if table == [] then []
    else
      var n := |table| - 1;
      assert forall g :: g in table <==> g in table[..n] || g == table[n];
      GroupsNamed(table[..n], names) + if table[n].name in names then [table[n]] else []
  }

  ghost predicate NamesUnique(groups: seq<GroupRow>)
  {
    forall i, j :: 0 <= i < j < |groups| ==> groups[i].name != groups[j].name
  }

  lemma {:induction false} GroupsNamedUnique(table: seq<GroupRow>, names: seq<string>)
    requires NamesUnique(table)
    ensures NamesUnique(GroupsNamed(table, names))
  {
    if table != [] {
      var n := |table| - 1;
      GroupsNamedUnique(table[..n], names);
      var front := GroupsNamed(table[..n], names);
      forall i | 0 <= i < |front| ensures front[i].name != table[n].name {
        assert front[i] in table[..n];
      }
    }
  }

  ghost predicate Defined(groups: seq<GroupRow>, name: string)
  {
    exists g :: g in groups && g.name == name
  }

  /** "Find not found": names referenced by routing that are neither a group nor a preset. */
  method UndefinedNames(outbounds: seq<string>, groups: seq<GroupRow>) returns (notFound: seq<string>)
    ensures forall name :: name in notFound <==>
              && name in outbounds && (forall g :: g in groups ==> g.name != name)
              && name != "direct" && name != "block" && name != "must_rules"
  {
    var nameSet := set name | name in outbounds;
    for k := 0 to |groups|
      invariant forall name :: name in nameSet <==>
                name in outbounds && forall j :: 0 <= j < k ==> groups[j].name != name
    {
      nameSet := nameSet - {groups[k].name};
    }
    notFound := [];
    var left := nameSet;
    while left != {}
      invariant left <= nameSet
      invariant forall name :: name in notFound <==> name in nameSet && name !in left && !Preset(name)
      decreases left
    {
      var name :| name in left;
      if !Preset(name) {
        notFound := notFound + [name];
      }
      left := left - {name};
    }
  }

  // ---- Naming the merged nodes ----

  /** Every row that any group of the table could draw on. */
  ghost predicate RowIn(table: seq<GroupRow>, row: NodeRow)
  {
    exists g :: g in table && (row in g.solitary || exists b :: b in g.bindings && row in b.nodes)
  }

  /** What the schema and ValidateTag guarantee: tags are well formed and unique to a row
      (db/node.go:15), and group names are unique (db/group.go:14). */
  ghost predicate WellFormed(table: seq<GroupRow>)
  {
    && NamesUnique(table)
    && (forall row :: RowIn(table, row) && row.tag.Some? ==> ValidateTag(row.tag.value))
    && (forall r, s :: RowIn(table, r) && RowIn(table, s) && r.tag.Some? && r.tag == s.tag ==> r == s)
  }

  /** Nodes as they enter the emission: names unique and safe, links unique, and each node serving
      exactly the groups that its link feeds. */
  ghost predicate Prepared(re: Regexp, groups: seq<GroupRow>, nodes: seq<Node>)
    reads nodes
  {
    && LinksDistinct(nodes)
    && NamesUniqueAndSafe(nodes)
    && Serves(re, groups, nodes)
    && Covers(re, groups, nodes)
    && Wanted(re, groups, nodes)
  }

  ghost predicate Wanted(re: Regexp, groups: seq<GroupRow>, nodes: seq<Node>)
  {
    forall n :: n in nodes ==> WantedLink(re, groups, n.dbNode.link)
  }

  ghost predicate WantedLink(re: Regexp, groups: seq<GroupRow>, link: string)
  {
    exists g :: g in groups && FeedsLink(re, g, link)
  }

  ghost predicate Covers(re: Regexp, groups: seq<GroupRow>, nodes: seq<Node>)
  {
    forall gi, link :: 0 <= gi < |groups| && FeedsLink(re, groups[gi], link) ==>
      exists n :: n in nodes && n.dbNode.link == link
  }

  ghost predicate Serves(re: Regexp, groups: seq<GroupRow>, nodes: seq<Node>)
    reads nodes
  {
    forall n, gi: nat :: n in nodes ==>
      (gi in n.groups <==> gi < |groups| && FeedsLink(re, groups[gi], n.dbNode.link))
  }

  lemma MergedServes(re: Regexp, groups: seq<GroupRow>, nodes: seq<Node>, gs: seq<seq<nat>>, link: string, gi: nat)
    requires |nodes| == |gs| == |Members(re, groups)|
    requires forall k :: 0 <= k < |nodes| ==>
               nodes[k].dbNode == Members(re, groups)[k].0 && gs[k] == [Members(re, groups)[k].1]
    ensures gi in Merged(nodes, gs, |nodes|, link) <==> gi < |groups| && FeedsLink(re, groups[gi], link)
  {
    var ms := Members(re, groups);
    MergedHas(nodes, gs, |nodes|, link, gi);
    if k :| 0 <= k < |nodes| && nodes[k].dbNode.link == link && gi in gs[k] {
      assert (ms[k].0, gi) in ms;
      MembersFeed(re, groups, ms[k].0, gi);
    }
    if gi < |groups| && FeedsLink(re, groups[gi], link) {
      var row :| Feeds(re, groups[gi], row) && row.link == link;
      MembersFeed(re, groups, row, gi);
      var k :| 0 <= k < |ms| && ms[k] == (row, gi);
      assert nodes[k].dbNode.link == link && gi in gs[k];
    }
  }

  ghost predicate RowsIn(table: seq<GroupRow>, nodes: seq<Node>)
  {
    forall n :: n in nodes ==> RowIn(table, n.dbNode)
  }

  /** deduplicateNodes, seen from the groups: one node per link that any group draws on. */
  method MergeNodes(re: Regexp, groups: seq<GroupRow>, nodes: seq<Node>) returns (ret: seq<Node>)
    requires Represents(nodes, Members(re, groups))
    modifies nodes`groups
    ensures LinksDistinct(ret) && Serves(re, groups, ret) && Covers(re, groups, ret)
    ensures Wanted(re, groups, ret) && RowsIn(groups, ret)
    ensures forall n :: n in ret ==> n in nodes
  {
    ghost var gs := GroupLists(nodes);
    ret := DeduplicateNodes(nodes);
    forall n, gi: nat | n in ret ensures gi in n.groups <==> gi < |groups| && FeedsLink(re, groups[gi], n.dbNode.link) {
      MergedServes(re, groups, nodes, gs, n.dbNode.link, gi);
    }
    MergedCovers(re, groups, nodes, ret);
    MergedRows(re, groups, nodes, ret);
  }

  lemma MergedCovers(re: Regexp, groups: seq<GroupRow>, nodes: seq<Node>, ret: seq<Node>)
    requires |nodes| == |Members(re, groups)|
    requires forall k :: 0 <= k < |nodes| ==> nodes[k].dbNode == Members(re, groups)[k].0
    requires forall k :: 0 <= k < |nodes| ==> nodes[k].dbNode.link in Links(ret)
    ensures Covers(re, groups, ret)
  {
    forall gi, link | 0 <= gi < |groups| && FeedsLink(re, groups[gi], link)
      ensures exists n :: n in ret && n.dbNode.link == link
    {
      var row :| Feeds(re, groups[gi], row) && row.link == link;
      MembersFeed(re, groups, row, gi);
      var k :| 0 <= k < |nodes| && Members(re, groups)[k] == (row, gi);
      assert nodes[k].dbNode.link == link;
      var i :| 0 <= i < |ret| && Links(ret)[i] == link;
      assert ret[i] in ret;
    }
  }

  lemma MergedRows(re: Regexp, groups: seq<GroupRow>, nodes: seq<Node>, ret: seq<Node>)
    requires |nodes| == |Members(re, groups)|
    requires forall k :: 0 <= k < |nodes| ==> nodes[k].dbNode == Members(re, groups)[k].0
    requires forall n :: n in ret ==> FirstBefore(nodes, n, |nodes|)
    ensures RowsIn(groups, ret) && Wanted(re, groups, ret) && forall n :: n in ret ==> n in nodes
  {
    forall n | n in ret ensures RowIn(groups, n.dbNode) && WantedLink(re, groups, n.dbNode.link) && n in nodes {
      assert FirstBefore(nodes, n, |nodes|);
      var k: nat :| k < |nodes| && FirstWithLink(nodes, n, k);
      var (row, gi) := Members(re, groups)[k];
      MembersFeed(re, groups, row, gi);
      assert groups[gi] in groups && FeedsLink(re, groups[gi], row.link);
    }
  }

  lemma NoShadows(table: seq<GroupRow>, nodes: seq<Node>)
    requires WellFormed(table) && RowsIn(table, nodes) && LinksDistinct(nodes)
    ensures forall k :: 0 <= k < |nodes| ==> !Shadowed(nodes, k)
  {
    forall k | 0 <= k < |nodes| ensures !Shadowed(nodes, k) {
      forall j | k < j < |nodes| && nodes[k].dbNode.tag.Some?
        ensures nodes[j].dbNode.tag != nodes[k].dbNode.tag
      {
        assert Links(nodes)[k] != Links(nodes)[j];
        assert nodes[k] in nodes && nodes[j] in nodes;
      }
    }
  }

  lemma NamesGood(table: seq<GroupRow>, nodes: seq<Node>, nm: seq<string>)
    requires WellFormed(table) && RowsIn(table, nodes) && LinksDistinct(nodes) && TagsLead(nodes)
    requires |nm| == |nodes| && Chosen(nodes, nm)
    ensures Distinct(nm) && forall k :: 0 <= k < |nm| ==> NameSafe(nm[k])
  {
    NoShadows(table, nodes);
    forall k, j | 0 <= k < j < |nm| ensures nm[k] != nm[j] {
      if nm[k] == nm[j] { LaterOwnerShadows(nodes, nm, k, j); }
    }
    forall k | 0 <= k < |nm| ensures NameSafe(nm[k]) {
      var row := nodes[k].dbNode;
      assert nodes[k] in nodes && ChosenAt(row, nm, k);
      if row.tag.None? {
        var f: nat :| nm[k] == Candidate(BaseName(row), f) && FirstFree(BaseName(row), f, nm[..k]);
        CandidateSafe(row, f);
      }
    }
  }

  lemma SortKeeps(nodes: seq<Node>)
    requires LinksDistinct(nodes)
    ensures Distinct(nodes) && LinksDistinct(TaggedFirst(nodes)) && TagsLead(TaggedFirst(nodes))
    ensures forall n :: n in TaggedFirst(nodes) <==> n in nodes
  {
    forall i, j | 0 <= i < j < |nodes| ensures nodes[i] != nodes[j] {
      assert Links(nodes)[i] != Links(nodes)[j];
    }
    TaggedFirstIsSort(nodes);
    var r := TaggedFirst(nodes);
    forall i, j | 0 <= i < j < |r| ensures Links(r)[i] != Links(r)[j] {
      assert r[i] in nodes && r[j] in nodes && r[i] != r[j];
      var k :| 0 <= k < |nodes| && nodes[k] == r[i];
      var l :| 0 <= l < |nodes| && nodes[l] == r[j];
      assert Links(nodes)[k] != Links(nodes)[l];
    }
  }

  ghost predicate NamesUniqueAndSafe(nodes: seq<Node>)
    reads nodes
  {
    && (forall i, j :: 0 <= i < j < |nodes| ==> nodes[i].uniqueName != nodes[j].uniqueName)
    && (forall i :: 0 <= i < |nodes| ==> NameSafe(nodes[i].uniqueName))
  }

  /** uniquefyNodesName on the slice that deduplicateNodes returned. */
  method NameMerged(groups: seq<GroupRow>, merged: seq<Node>) returns (a: array<Node>)
    requires WellFormed(groups) && RowsIn(groups, merged) && LinksDistinct(merged)
    modifies merged`uniqueName
    ensures fresh(a) && NamesUniqueAndSafe(a[..]) && LinksDistinct(a[..])
    ensures forall n :: n in a[..] <==> n in merged
  {
    SortKeeps(merged);
    a := new Node[|merged|](i requires 0 <= i < |merged| => merged[i]);
    assert a[..] == merged;
    ghost var nm := UniquefyNodesName(a);
    ghost var sorted := TaggedFirst(merged);
    NoShadows(groups, sorted);
    NamesGood(groups, sorted, nm);
    assert a[..] == sorted && forall k :: 0 <= k < |sorted| ==> sorted[k].uniqueName == nm[k];
  }

  /** deduplicateNodes, then uniquefyNodesName. */
  method PrepareNodes(re: Regexp, groups: seq<GroupRow>, nodes: seq<Node>) returns (a: array<Node>)
    requires WellFormed(groups) && Represents(nodes, Members(re, groups))
    modifies nodes
    ensures fresh(a) && Prepared(re, groups, a[..])
  {
    var merged := MergeNodes(re, groups, nodes);
    assert forall k :: 0 <= k < |merged| ==> merged[k] in nodes;
    a := NameMerged(groups, merged);
  }

  // ---- Emission ----

  /** A node entry `name:link` splits at its first colon. */
  function SplitEntry(entry: string): (string, string)
  {
    var i := IndexOf(entry, ':');
    if i == |entry| then ("", entry) else (entry[..i], entry[i + 1..])
  }

  lemma SplitOfEntry(name: string, link: string)
    requires NameSafe(name)
    ensures SplitEntry(name + ":" + link) == (name, link)
  {
    var entry := name + ":" + link;
    assert FirstAt(entry, ':', |name|);
    assert entry[..|name|] == name && entry[|name| + 1..] == link;
  }

  /** "Group -> nodes": the set of nodes of each group. */
  method NodesByGroup(m: nat, nodes: seq<Node>) returns (byGroup: map<nat, set<Node>>)
    ensures forall gi: nat :: gi in byGroup <==> gi < m
    ensures forall gi :: gi in byGroup ==> MembersOf(nodes, gi, byGroup[gi])
  {
    byGroup := map[];
    for gi := 0 to m
      invariant forall k: nat :: k in byGroup <==> k < gi
      invariant forall k :: k in byGroup ==> byGroup[k] == {}
    {
      byGroup := byGroup[gi := {}];
    }
    for i := 0 to |nodes|
      invariant forall gi: nat :: gi in byGroup <==> gi < m
      invariant forall gi, n :: gi in byGroup ==> (n in byGroup[gi] <==> n in nodes[..i] && gi in n.groups)
    {
      byGroup := map gi | gi in byGroup :: if gi in nodes[i].groups then byGroup[gi] + {nodes[i]} else byGroup[gi];
    }
    assert nodes[..|nodes|] == nodes;
  }

  ghost predicate MembersOf(nodes: seq<Node>, gi: nat, members: set<Node>)
    reads nodes
  {
    members == set n | n in nodes && gi in n.groups
  }

  /** The policy's name stands alone without params; with params it is a call with just these, in order. */
  predicate PolicyMeans(g: GroupRow, policy: Policy)
  {
    && policy.name == g.policy && (policy.Call? <==> g.params != [])
    && (policy.Call? ==> policy.params == g.params)
  }

  /** Node names to filter, in the order in which the map's keys come. */
  method FilterNames(members: set<Node>) returns (names: seq<string>)
    ensures forall x :: x in names <==> exists n :: n in members && n.uniqueName == x
  {
    names := [];
    var left := members;
    while left != {}
      invariant left <= members
      invariant forall x :: x in names <==> exists n :: n in members && n !in left && n.uniqueName == x
      decreases left
    {
      var node :| node in left;
      names := names + [node.uniqueName];
      left := left - {node};
    }
  }

  /** The filter admits exactly the names of the nodes that serve the group. */
  ghost predicate FiltersGroup(nodes: seq<Node>, gi: nat, filter: seq<string>)
    reads nodes
  {
    forall x :: x in filter <==> exists n :: n in nodes && gi in n.groups && n.uniqueName == x
  }

  ghost predicate EmitsEntries(nodes: seq<Node>, entries: seq<string>)
    reads nodes
  {
    |entries| == |nodes| &&
    forall i :: 0 <= i < |nodes| ==> entries[i] == nodes[i].uniqueName + ":" + nodes[i].dbNode.link
  }

  method EmitNodes(nodes: seq<Node>) returns (entries: seq<string>)
    ensures EmitsEntries(nodes, entries)
  {
    entries := [];
    for i := 0 to |nodes|
      invariant |entries| == i
      invariant forall k :: 0 <= k < i ==> entries[k] == nodes[k].uniqueName + ":" + nodes[k].dbNode.link
    {
      entries := entries + [nodes[i].uniqueName + ":" + nodes[i].dbNode.link];
    }
  }

  /** What the emitted config gives a group: links of the entries whose name its filter admits. */
  ghost predicate Resolves(entries: seq<string>, filter: seq<string>, link: string)
  {
    exists i :: 0 <= i < |entries| && SplitEntry(entries[i]).0 in filter && SplitEntry(entries[i]).1 == link
  }

  lemma EntriesSplit(re: Regexp, groups: seq<GroupRow>, nodes: seq<Node>, entries: seq<string>)
    requires Prepared(re, groups, nodes) && EmitsEntries(nodes, entries)
    ensures forall i :: 0 <= i < |nodes| ==> SplitEntry(entries[i]) == (nodes[i].uniqueName, nodes[i].dbNode.link)
  {
    forall i | 0 <= i < |nodes| ensures SplitEntry(entries[i]) == (nodes[i].uniqueName, nodes[i].dbNode.link) {
      SplitOfEntry(nodes[i].uniqueName, nodes[i].dbNode.link);
    }
  }

  /** No link leaks in: what the filter admits, the database gives. */
  lemma NoLeak(re: Regexp, groups: seq<GroupRow>, nodes: seq<Node>, gi: nat,
               filter: seq<string>, entries: seq<string>, link: string)
    requires gi < |groups| && Prepared(re, groups, nodes)
    requires FiltersGroup(nodes, gi, filter) && EmitsEntries(nodes, entries)
    requires Resolves(entries, filter, link)
    ensures FeedsLink(re, groups[gi], link)
  {
    EntriesSplit(re, groups, nodes, entries);
    var i :| 0 <= i < |entries| && SplitEntry(entries[i]).0 in filter && SplitEntry(entries[i]).1 == link;
    var n :| n in nodes && gi in n.groups && n.uniqueName == nodes[i].uniqueName;
    var j :| 0 <= j < |nodes| && nodes[j] == n;
    assert i == j;
  }

  /** No link is lost: what the database gives, the filter admits. */
  lemma NoLoss(re: Regexp, groups: seq<GroupRow>, nodes: seq<Node>, gi: nat,
               filter: seq<string>, entries: seq<string>, link: string)
    requires gi < |groups| && Prepared(re, groups, nodes)
    requires FiltersGroup(nodes, gi, filter) && EmitsEntries(nodes, entries)
    requires FeedsLink(re, groups[gi], link)
    ensures Resolves(entries, filter, link)
  {
    EntriesSplit(re, groups, nodes, entries);
    var n :| n in nodes && n.dbNode.link == link;
    var i :| 0 <= i < |nodes| && nodes[i] == n;
    assert gi in n.groups;
    assert SplitEntry(entries[i]).0 in filter;
  }

  // ---- Building the sections ----

  ghost predicate Fed(re: Regexp, g: GroupRow)
  {
    exists link :: FeedsLink(re, g, link)
  }

  ghost predicate OneLink(re: Regexp, g: GroupRow)
  {
    forall l, m :: FeedsLink(re, g, l) && FeedsLink(re, g, m) ==> l == m
  }

  /** When a group can be emitted: it has a link, and just one if its policy is "fixed". */
  ghost predicate Emittable(re: Regexp, g: GroupRow)
  {
    Fed(re, g) && (g.policy == "fixed" ==> OneLink(re, g))
  }

  predicate Accepts(g: GroupRow, members: set<Node>)
  {
    members != {} && (g.policy == "fixed" ==> |members| <= 1)
  }

  ghost predicate Rejects(g: GroupRow, members: set<Node>, err: BuildError)
  {
    && !Accepts(g, members)
    && err == if members == {} then EmptyGroup(g.name) else FixedGroupTooBig(g.name)
  }

  lemma AtMostOne<T>(s: set<T>)
    ensures |s| <= 1 <==> forall x, y :: x in s && y in s ==> x == y
  {
    if s != {} {
      var x :| x in s;
      assert s == {x} + (s - {x});
      if s - {x} != {} {
        var y :| y in s - {x};
      }
    }
  }

  /** The checks on the set of nodes are checks on the group's distinct links. */
  lemma AcceptsExactly(re: Regexp, groups: seq<GroupRow>, nodes: seq<Node>, gi: nat, members: set<Node>)
    requires gi < |groups| && Prepared(re, groups, nodes) && MembersOf(nodes, gi, members)
    ensures members != {} <==> Fed(re, groups[gi])
    ensures |members| <= 1 <==> OneLink(re, groups[gi])
  {
    var g := groups[gi];
    assert forall n :: n in members ==> FeedsLink(re, g, n.dbNode.link);
    assert forall l :: FeedsLink(re, g, l) ==> exists n :: n in members && n.dbNode.link == l;
    AtMostOne(members);
    forall x, y | x in members && y in members && x.dbNode.link == y.dbNode.link ensures x == y {
      SameLink(nodes, x, y);
    }
  }

  lemma SameLink(nodes: seq<Node>, x: Node, y: Node)
    requires LinksDistinct(nodes) && x in nodes && y in nodes && x.dbNode.link == y.dbNode.link
    ensures x == y
  {
    var i :| 0 <= i < |nodes| && nodes[i] == x;
    var j :| 0 <= j < |nodes| && nodes[j] == y;
    assert Links(nodes)[i] == Links(nodes)[j];
  }

  ghost predicate Emits(groups: seq<GroupRow>, nodes: seq<Node>, gi: nat, sec: Section)
    reads nodes
  {
    && gi < |groups|
    && sec.name == groups[gi].name
    && PolicyMeans(groups[gi], sec.policy)
    && FiltersGroup(nodes, gi, sec.filter)
  }

  /** One turn of "Fill in group section". */
  method EmitGroup(groups: seq<GroupRow>, nodes: seq<Node>, gi: nat, members: set<Node>)
    returns (r: Result<Section, BuildError>)
    requires gi < |groups| && MembersOf(nodes, gi, members)
    ensures r.Ok? ==> Accepts(groups[gi], members) && Emits(groups, nodes, gi, r.value)
    ensures r.Err? ==> Rejects(groups[gi], members, r.error)
  {
    var g := groups[gi];
    if |members| == 0 {
      return Err(EmptyGroup(g.name));
    }
    if g.policy == "fixed" && |members| > 1 {
      return Err(FixedGroupTooBig(g.name));
    }
    var names := FilterNames(members);
    var policy := if |g.params| == 0 then Named(g.policy) else Call(g.policy, g.params);
    return Ok(Section(g.name, names, policy));
  }

  /** Each group has exactly one section; `order` is the order in which the map gave the groups. */
  ghost predicate EmitsAll(groups: seq<GroupRow>, nodes: seq<Node>, order: seq<nat>, sections: seq<Section>)
    reads nodes
  {
    && |order| == |sections|
    && Distinct(order)
    && (forall k :: 0 <= k < |order| ==> Emits(groups, nodes, order[k], sections[k]))
  }

  ghost predicate AllAccepted(groups: seq<GroupRow>, byGroup: map<nat, set<Node>>)
    requires forall gi :: gi in byGroup ==> gi < |groups|
  {
    forall gi :: gi in byGroup ==> Accepts(groups[gi], byGroup[gi])
  }

  method EmitGroups(groups: seq<GroupRow>, nodes: seq<Node>, byGroup: map<nat, set<Node>>)
    returns (r: Result<seq<Section>, BuildError>, ghost order: seq<nat>)
    requires forall gi: nat :: gi in byGroup <==> gi < |groups|
    requires forall gi :: gi in byGroup ==> MembersOf(nodes, gi, byGroup[gi])
    ensures r.Ok? ==> AllAccepted(groups, byGroup)
    ensures r.Ok? ==> EmitsAll(groups, nodes, order, r.value) && forall gi :: gi in byGroup ==> gi in order
    ensures r.Err? ==> exists gi :: gi in byGroup && Rejects(groups[gi], byGroup[gi], r.error)
  {
    var sections := [];
    order := [];
    var left := byGroup.Keys;
    while left != {}
      invariant left <= byGroup.Keys
      invariant EmitsAll(groups, nodes, order, sections)
      invariant forall gi :: gi in byGroup ==> (gi in order <==> gi !in left)
      invariant forall gi :: gi in byGroup && gi !in left ==> Accepts(groups[gi], byGroup[gi])
      decreases left
    {
      var gi :| gi in left;
      var sec := EmitGroup(groups, nodes, gi, byGroup[gi]);
      if sec.Err? {
        return Err(sec.error), order;
      }
      sections := sections + [sec.value];
      order := order + [gi];
      left := left - {gi};
    }
    return Ok(sections), order;
  }

  // ---- The whole compilation ----

  /** The emitted section stands for the group: its policy and, read through the entries, its links. */
  ghost predicate SectionMeans(re: Regexp, entries: seq<string>, sec: Section, g: GroupRow)
  {
    && sec.name == g.name && PolicyMeans(g, sec.policy)
    && forall link :: Resolves(entries, sec.filter, link) <==> FeedsLink(re, g, link)
  }

  ghost predicate MeansSome(re: Regexp, groups: seq<GroupRow>, entries: seq<string>, sec: Section)
  {
    exists g :: g in groups && SectionMeans(re, entries, sec, g)
  }

  ghost predicate SectionNamesDistinct(sections: seq<Section>)
  {
    forall j, k :: 0 <= j < k < |sections| ==> sections[j].name != sections[k].name
  }

  ghost predicate HasSection(sections: seq<Section>, name: string)
  {
    exists sec :: sec in sections && sec.name == name
  }

  /** Every group has exactly one section, and every section means its group. */
  ghost predicate GroupsFaithful(re: Regexp, groups: seq<GroupRow>, cfg: Emitted)
  {
    && (forall sec :: sec in cfg.groups ==> MeansSome(re, groups, cfg.nodes, sec))
    && SectionNamesDistinct(cfg.groups)
    && (forall g :: g in groups ==> HasSection(cfg.groups, g.name))
  }

  ghost predicate EntryGood(re: Regexp, groups: seq<GroupRow>, entry: string)
  {
    var (name, link) := SplitEntry(entry);
    entry == name + ":" + link && NameSafe(name) && WantedLink(re, groups, link)
  }

  /** Node entries have distinct names and distinct links, and no link that no group wants. */
  ghost predicate NodesFaithful(re: Regexp, groups: seq<GroupRow>, entries: seq<string>)
  {
    && (forall i :: 0 <= i < |entries| ==> EntryGood(re, groups, entries[i]))
    && (forall i, j :: 0 <= i < j < |entries| ==> SplitEntry(entries[i]).0 != SplitEntry(entries[j]).0)
    && (forall i, j :: 0 <= i < j < |entries| ==> SplitEntry(entries[i]).1 != SplitEntry(entries[j]).1)
  }

  lemma EmittedMeans(re: Regexp, groups: seq<GroupRow>, nodes: seq<Node>, gi: nat, sec: Section, entries: seq<string>)
    requires Prepared(re, groups, nodes) && Emits(groups, nodes, gi, sec) && EmitsEntries(nodes, entries)
    ensures SectionMeans(re, entries, sec, groups[gi])
  {
    forall link ensures Resolves(entries, sec.filter, link) <==> FeedsLink(re, groups[gi], link) {
      if Resolves(entries, sec.filter, link) { NoLeak(re, groups, nodes, gi, sec.filter, entries, link); }
      if FeedsLink(re, groups[gi], link) { NoLoss(re, groups, nodes, gi, sec.filter, entries, link); }
    }
  }

  lemma SectionsFaithful(re: Regexp, groups: seq<GroupRow>, nodes: seq<Node>, order: seq<nat>, cfg: Emitted)
    requires NamesUnique(groups) && Prepared(re, groups, nodes)
    requires EmitsAll(groups, nodes, order, cfg.groups) && EmitsEntries(nodes, cfg.nodes)
    requires forall gi: nat :: gi < |groups| ==> gi in order
    ensures GroupsFaithful(re, groups, cfg)
  {
    forall sec | sec in cfg.groups ensures MeansSome(re, groups, cfg.nodes, sec) {
      var k :| 0 <= k < |cfg.groups| && cfg.groups[k] == sec;
      EmittedMeans(re, groups, nodes, order[k], sec, cfg.nodes);
      assert groups[order[k]] in groups;
    }
    forall j, k | 0 <= j < k < |cfg.groups| ensures cfg.groups[j].name != cfg.groups[k].name {
      assert Emits(groups, nodes, order[j], cfg.groups[j]) && Emits(groups, nodes, order[k], cfg.groups[k]);
      assert order[j] != order[k];
    }
    forall g | g in groups ensures HasSection(cfg.groups, g.name) {
      var gi: nat :| gi < |groups| && groups[gi] == g;
      assert gi in order;
      var k :| 0 <= k < |order| && order[k] == gi;
      assert cfg.groups[k] in cfg.groups && Emits(groups, nodes, order[k], cfg.groups[k]);
    }
  }

  lemma EntriesFaithful(re: Regexp, groups: seq<GroupRow>, nodes: seq<Node>, entries: seq<string>)
    requires Prepared(re, groups, nodes) && EmitsEntries(nodes, entries)
    ensures NodesFaithful(re, groups, entries)
  {
    EntriesSplit(re, groups, nodes, entries);
    forall i | 0 <= i < |entries| ensures EntryGood(re, groups, entries[i]) {
      assert nodes[i] in nodes;
    }
    forall i, j | 0 <= i < j < |entries| ensures SplitEntry(entries[i]).1 != SplitEntry(entries[j]).1 {
      assert Links(nodes)[i] != Links(nodes)[j];
    }
  }

  /** The error names a group of the list that has no link, or is "fixed" with two. */
  ghost predicate Unemittable(re: Regexp, g: GroupRow, err: BuildError)
  {
    || (err == EmptyGroup(g.name) && !Fed(re, g))
    || (err == FixedGroupTooBig(g.name) && g.policy == "fixed" && !OneLink(re, g))
  }

  ghost predicate UnemittableOne(re: Regexp, groups: seq<GroupRow>, err: BuildError)
  {
    exists g :: g in groups && Unemittable(re, g, err)
  }

  ghost predicate AllEmittable(re: Regexp, groups: seq<GroupRow>)
  {
    forall g :: g in groups ==> Emittable(re, g)
  }

  lemma AcceptedEmittable(re: Regexp, groups: seq<GroupRow>, nodes: seq<Node>, byGroup: map<nat, set<Node>>)
    requires Prepared(re, groups, nodes) && forall gi: nat :: gi in byGroup <==> gi < |groups|
    requires forall gi :: gi in byGroup ==> MembersOf(nodes, gi, byGroup[gi])
    requires AllAccepted(groups, byGroup)
    ensures AllEmittable(re, groups)
  {
    forall g | g in groups ensures Emittable(re, g) {
      var gi: nat :| gi < |groups| && groups[gi] == g;
      AcceptsExactly(re, groups, nodes, gi, byGroup[gi]);
    }
  }

  lemma RejectedUnemittable(re: Regexp, groups: seq<GroupRow>, nodes: seq<Node>, gi: nat, members: set<Node>,
                            err: BuildError)
    requires Prepared(re, groups, nodes) && gi < |groups| && MembersOf(nodes, gi, members)
    requires Rejects(groups[gi], members, err)
    ensures UnemittableOne(re, groups, err) && !AllEmittable(re, groups)
  {
    AcceptsExactly(re, groups, nodes, gi, members);
    assert groups[gi] in groups && Unemittable(re, groups[gi], err);
  }

  /** "Fill in group section" and "Fill in node section". */
  method EmitSections(re: Regexp, groups: seq<GroupRow>, nodes: seq<Node>) returns (r: Result<Emitted, BuildError>)
    requires NamesUnique(groups) && Prepared(re, groups, nodes)
    ensures r.Ok? ==> AllEmittable(re, groups)
    ensures r.Ok? ==> GroupsFaithful(re, groups, r.value) && NodesFaithful(re, groups, r.value.nodes)
    ensures r.Err? ==> UnemittableOne(re, groups, r.error) && !AllEmittable(re, groups)
  {
    var byGroup := NodesByGroup(|groups|, nodes);
    var sections, order := EmitGroups(groups, nodes, byGroup);
    if sections.Err? {
      ghost var gi :| gi in byGroup && Rejects(groups[gi], byGroup[gi], sections.error);
      RejectedUnemittable(re, groups, nodes, gi, byGroup[gi], sections.error);
      return Err(sections.error);
    }
    AcceptedEmittable(re, groups, nodes, byGroup);
    var entries := EmitNodes(nodes);
    var cfg := Emitted(sections.value, entries);
    SectionsFaithful(re, groups, nodes, order, cfg);
    EntriesFaithful(re, groups, nodes, entries);
    return Ok(cfg);
  }

  ghost predicate AllDefined(table: seq<GroupRow>, routing: Routing)
  {
    forall name :: Needed(routing, name) ==> Preset(name) || Defined(table, name)
  }

  /** The error tells the truth: the undefined names exactly, or a needed group that cannot be built. */
  ghost predicate Genuine(re: Regexp, table: seq<GroupRow>, routing: Routing, groups: seq<GroupRow>, err: BuildError)
  {
    match err
    case GroupsNotDefined(names) =>
      names != [] && forall name :: name in names <==> Needed(routing, name) && !Preset(name) && !Defined(table, name)
    case _ => UnbuildableOne(re, groups, err)
  }

  ghost predicate NeededGroups(table: seq<GroupRow>, routing: Routing, groups: seq<GroupRow>)
  {
    forall g :: g in groups <==> g in table && Needed(routing, g.name)
  }

  lemma SubTableWellFormed(table: seq<GroupRow>, groups: seq<GroupRow>)
    requires WellFormed(table) && NamesUnique(groups) && forall g :: g in groups ==> g in table
    ensures WellFormed(groups)
  {
    assert forall row :: RowIn(groups, row) ==> RowIn(table, row);
  }

  /** "Fill in necessary groups and nodes", once the groups are known to be defined. */
  method CompileGroups(re: Regexp, groups: seq<GroupRow>) returns (r: Result<Emitted, BuildError>)
    requires WellFormed(groups)
    ensures r.Ok? <==> AllBuildable(re, groups)
    ensures r.Ok? ==> GroupsFaithful(re, groups, r.value) && NodesFaithful(re, groups, r.value.nodes)
    ensures r.Err? ==> UnbuildableOne(re, groups, r.error)
  {
    var collected := CollectNodes(re, groups);
    if collected.Err? {
      return Err(InvalidRegex(collected.error.name));
    }
    assert forall k :: 0 <= k < |collected.value| ==> collected.value[k] in collected.value;
    var nodes := PrepareNodes(re, groups, collected.value);
    r := EmitSections(re, groups, nodes[..]);
  }

  ghost predicate AllBuildable(re: Regexp, groups: seq<GroupRow>)
  {
    (forall g :: g in groups ==> RegexesOk(re, g)) && AllEmittable(re, groups)
  }

  ghost predicate UnbuildableOne(re: Regexp, groups: seq<GroupRow>, err: BuildError)
  {
    exists g :: g in groups && Unbuildable(re, g, err)
  }

  ghost predicate Unbuildable(re: Regexp, g: GroupRow, err: BuildError)
  {
    (err == InvalidRegex(g.name) && !RegexesOk(re, g)) || Unemittable(re, g, err)
  }

  ghost predicate OnlyAt(sections: seq<Section>, name: string, k: nat)
  {
    k < |sections| && forall j :: 0 <= j < |sections| ==> (sections[j].name == name <==> j == k)
  }

  ghost predicate EmittedOnce(sections: seq<Section>, name: string)
  {
    exists k: nat :: OnlyAt(sections, name, k)
  }

  /** The section resolves to at least one link, and to just one if its policy is "fixed". */
  ghost predicate Linked(entries: seq<string>, sec: Section)
  {
    && (exists link :: Resolves(entries, sec.filter, link))
    && (sec.policy.name == "fixed" ==>
          forall l, m :: Resolves(entries, sec.filter, l) && Resolves(entries, sec.filter, m) ==> l == m)
  }

  /** Each outbound that routing needs is a preset or emitted exactly once, and nothing else is emitted. */
  ghost predicate OutboundsCovered(routing: Routing, cfg: Emitted)
  {
    && (forall name :: Needed(routing, name) && !Preset(name) ==> EmittedOnce(cfg.groups, name))
    && (forall sec :: sec in cfg.groups ==> Needed(routing, sec.name) && Linked(cfg.nodes, sec))
  }

  lemma EmittedOnceBy(sections: seq<Section>, name: string)
    requires SectionNamesDistinct(sections) && HasSection(sections, name)
    ensures EmittedOnce(sections, name)
  {
    var k: nat :| k < |sections| && sections[k].name == name;
    assert OnlyAt(sections, name, k);
  }

  lemma SectionLinked(re: Regexp, entries: seq<string>, sec: Section, g: GroupRow)
    requires SectionMeans(re, entries, sec, g) && Emittable(re, g)
    ensures Linked(entries, sec)
  {
    var link :| FeedsLink(re, g, link);
    assert Resolves(entries, sec.filter, link);
    forall l, m | Resolves(entries, sec.filter, l) && Resolves(entries, sec.filter, m) && sec.policy.name == "fixed"
      ensures l == m
    {
      assert FeedsLink(re, g, l) && FeedsLink(re, g, m);
    }
  }

  lemma SectionNeeded(re: Regexp, table: seq<GroupRow>, routing: Routing, groups: seq<GroupRow>, entries: seq<string>,
                      sec: Section)
    requires NeededGroups(table, routing, groups) && AllEmittable(re, groups) && MeansSome(re, groups, entries, sec)
    ensures Needed(routing, sec.name) && Linked(entries, sec)
  {
    var g :| g in groups && SectionMeans(re, entries, sec, g);
    SectionLinked(re, entries, sec, g);
  }

  lemma NeededEmitted(table: seq<GroupRow>, routing: Routing, groups: seq<GroupRow>, sections: seq<Section>,
                      name: string)
    requires NeededGroups(table, routing, groups) && AllDefined(table, routing) && SectionNamesDistinct(sections)
    requires forall g :: g in groups ==> HasSection(sections, g.name)
    requires Needed(routing, name) && !Preset(name)
    ensures EmittedOnce(sections, name)
  {
    assert Defined(table, name);
    var g :| g in table && g.name == name;
    EmittedOnceBy(sections, name);
  }

  lemma Covered(re: Regexp, table: seq<GroupRow>, routing: Routing, groups: seq<GroupRow>, cfg: Emitted)
    requires NeededGroups(table, routing, groups) && AllDefined(table, routing)
    requires GroupsFaithful(re, groups, cfg) && AllEmittable(re, groups)
    ensures OutboundsCovered(routing, cfg)
  {
    forall name | Needed(routing, name) && !Preset(name) ensures EmittedOnce(cfg.groups, name) {
      NeededEmitted(table, routing, groups, cfg.groups, name);
    }
    forall sec | sec in cfg.groups ensures Needed(routing, sec.name) && Linked(cfg.nodes, sec) {
      SectionNeeded(re, table, routing, groups, cfg.nodes, sec);
    }
  }

  /** The build part of Run. It succeeds exactly on the buildable databases; what it emits means the
      groups that routing needs, neither more nor less; and its errors are genuine. */
  method Compile(re: Regexp, table: seq<GroupRow>, routing: Routing)
    returns (r: Result<Emitted, BuildError>, groups: seq<GroupRow>)
    requires WellFormed(table)
    ensures NeededGroups(table, routing, groups) && NamesUnique(groups)
    ensures r.Ok? <==> AllDefined(table, routing) && AllBuildable(re, groups)
    ensures r.Ok? ==> GroupsFaithful(re, groups, r.value) && NodesFaithful(re, groups, r.value.nodes)
    ensures r.Ok? ==> OutboundsCovered(routing, r.value)
    ensures r.Err? ==> Genuine(re, table, routing, groups, r.error)
  {
    var outbounds := NecessaryOutbounds(routing);
    var found := GroupsNamed(table, outbounds);
    groups := found;
    GroupsNamedUnique(table, outbounds);
    SubTableWellFormed(table, found);
    var notFound := UndefinedNames(outbounds, found);
    assert forall name :: Needed(routing, name) ==> (Defined(found, name) <==> Defined(table, name));
    if notFound != [] {
      assert notFound[0] in notFound;
      return Err(GroupsNotDefined(notFound)), groups;
    }
    r := CompileGroups(re, found);
    if r.Ok? { Covered(re, table, routing, found, r.value); }
  }
}

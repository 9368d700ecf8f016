/** The first half of the config compiler in graphql/service/config/mutation_utils.go: which rows
    belong to which group, collected from bindings and memberships and merged by link. */
module GroupMembers {
  import opened Wrappers
  import opened Database
  import opened Sequences
  import opened NodeNames

  /** Go's regexp package, which is not part of this repository: any total behaviour will do. */
  datatype Regexp = Regexp(compiles: string -> bool, matches: (string, string) -> bool)

  // ---- Which rows a group means ----

  predicate Filtered(b: Binding)
  {
    b.regex.Some? && b.regex.value != ""
  }

  predicate RegexOk(re: Regexp, b: Binding)
  {
    Filtered(b) ==> re.compiles(b.regex.value)
  }

  predicate Admits(re: Regexp, b: Binding, row: NodeRow)
  {
    Filtered(b) ==> re.matches(b.regex.value, row.name)
  }

  /** The meaning of a group in the database: rows that a binding admits, or that were added directly. */
  ghost predicate Feeds(re: Regexp, g: GroupRow, row: NodeRow)
  {
    row in g.solitary || exists b :: b in g.bindings && row in b.nodes && Admits(re, b, row)
  }

  ghost predicate FeedsLink(re: Regexp, g: GroupRow, link: string)
  {
    exists row :: Feeds(re, g, row) && row.link == link
  }

  // ---- matchedNodesForGroupSubscription ----

  function Matched(re: Regexp, b: Binding, nodes: seq<NodeRow>): (r: seq<NodeRow>)
    ensures forall row :: row in r <==> row in nodes && Admits(re, b, row)
  {
    if nodes == [] then []
    else
      var n := |nodes| - 1;
      Matched(re, b, nodes[..n]) + if Admits(re, b, nodes[n]) then [nodes[n]] else []
  }

  lemma {:induction false} MatchedAll(re: Regexp, b: Binding, nodes: seq<NodeRow>)
    requires !Filtered(b)
    ensures Matched(re, b, nodes) == nodes
  {
    if nodes != [] {
      MatchedAll(re, b, nodes[..|nodes| - 1]);
    }
  }

  /** In order and as often as there: one row more is kept behind the others, if there is no pattern or it
      matches the row's name. */
  lemma MatchedInOrder(re: Regexp, b: Binding, rows: seq<NodeRow>, row: NodeRow)
    ensures Matched(re, b, []) == []
    ensures Matched(re, b, rows + [row]) ==
            if b.regex.Some? && b.regex.value != "" && !re.matches(b.regex.value, row.name)
            then Matched(re, b, rows) else Matched(re, b, rows) + [row]
  {
    assert (rows + [row])[..|rows|] == rows;
  }

  method MatchedNodes(re: Regexp, b: Binding) returns (r: Option<seq<NodeRow>>)
    ensures r.Some? <==> RegexOk(re, b)
    ensures r.Some? ==> r.value == Matched(re, b, b.nodes)
  {
    if !Filtered(b) {
      MatchedAll(re, b, b.nodes);
      return Some(b.nodes);
    }
    if !re.compiles(b.regex.value) {
      return None;
    }
    var matched := [];
    for i := 0 to |b.nodes|
      invariant matched == Matched(re, b, b.nodes[..i])
    {
      assert b.nodes[..i + 1][..i] == b.nodes[..i];
      if re.matches(b.regex.value, b.nodes[i].name) {
        matched := matched + [b.nodes[i]];
      }
    }
    assert b.nodes[..|b.nodes|] == b.nodes;
    return Some(matched);
  }

  // ---- Collecting members ----

  function BindingRows(re: Regexp, bindings: seq<Binding>): (r: seq<NodeRow>)
    ensures forall row :: row in r <==> exists b :: b in bindings && row in b.nodes && Admits(re, b, row)
  {
    if bindings == [] then []
    else
      var n := |bindings| - 1;
      var front := BindingRows(re, bindings[..n]);
      assert forall b :: b in bindings <==> b in bindings[..n] || b == bindings[n];
      front + Matched(re, bindings[n], bindings[n].nodes)
  }

  function MemberRows(re: Regexp, g: GroupRow): (r: seq<NodeRow>)
    ensures forall row :: row in r <==> Feeds(re, g, row)
  {
    BindingRows(re, g.bindings) + g.solitary
  }

  function Pairs(rows: seq<NodeRow>, gi: nat): (r: seq<(NodeRow, nat)>)
    ensures |r| == |rows| && forall k :: 0 <= k < |rows| ==> r[k] == (rows[k], gi)
  {
    seq(|rows|, k requires 0 <= k < |rows| => (rows[k], gi))
  }

  /** Pairs (row, group index) in the order in which Run appends them. */
  function Members(re: Regexp, groups: seq<GroupRow>): seq<(NodeRow, nat)>
  {
    if groups == [] then []
    else
      var n := |groups| - 1;
      Members(re, groups[..n]) + Pairs(MemberRows(re, groups[n]), n)
  }

  lemma {:induction false} MembersFeed(re: Regexp, groups: seq<GroupRow>, row: NodeRow, gi: nat)
    ensures (row, gi) in Members(re, groups) <==> gi < |groups| && Feeds(re, groups[gi], row)
  {
    if groups != [] {
      var n := |groups| - 1;
      MembersFeed(re, groups[..n], row, gi);
      var rows := MemberRows(re, groups[n]);
      var last := Pairs(rows, n);
      if gi == n && row in rows {
        var k :| 0 <= k < |rows| && rows[k] == row;
        assert last[k] == (row, gi);
      }
    }
  }

  /** The nodes stand for the pairs, one object each, and nobody else holds them. */
  ghost predicate Represents(nodes: seq<Node>, ms: seq<(NodeRow, nat)>)
    reads nodes
  {
    && |nodes| == |ms|
    && Distinct(nodes)
    && forall k :: 0 <= k < |nodes| ==> nodes[k].dbNode == ms[k].0 && nodes[k].groups == [ms[k].1]
  }

  method AppendNodes(nodes: seq<Node>, rows: seq<NodeRow>, gi: nat, ghost ms: seq<(NodeRow, nat)>)
    returns (out: seq<Node>)
    requires Represents(nodes, ms)
    ensures Represents(out, ms + Pairs(rows, gi))
    ensures forall n :: n in out ==> n in nodes || fresh(n)
  {
    out := nodes;
    for k := 0 to |rows|
      invariant Represents(out, ms + Pairs(rows, gi)[..k])
      invariant forall n :: n in out ==> n in nodes || fresh(n)
    {
      var n := new Node(rows[k], gi);
      out := out + [n];
      assert ms + Pairs(rows, gi)[..k + 1] == (ms + Pairs(rows, gi)[..k]) + [(rows[k], gi)];
    }
    assert Pairs(rows, gi)[..|rows|] == Pairs(rows, gi);
  }

  ghost predicate RegexesOk(re: Regexp, g: GroupRow)
  {
    forall k :: 0 <= k < |g.bindings| ==> RegexOk(re, g.bindings[k])
  }

  lemma PairsConcat(a: seq<NodeRow>, b: seq<NodeRow>, gi: nat)
    ensures Pairs(a + b, gi) == Pairs(a, gi) + Pairs(b, gi)
  {
  }

  lemma BindingRowsStep(re: Regexp, bs: seq<Binding>, j: nat)
    requires j < |bs|
    ensures BindingRows(re, bs[..j + 1]) == BindingRows(re, bs[..j]) + Matched(re, bs[j], bs[j].nodes)
  {
    assert bs[..j + 1][..j] == bs[..j];
  }

  method AppendMatched(re: Regexp, nodes: seq<Node>, b: Binding, gi: nat,
                       ghost ms: seq<(NodeRow, nat)>, ghost before: seq<NodeRow>)
    returns (r: Option<seq<Node>>)
    requires Represents(nodes, ms + Pairs(before, gi))
    ensures r.Some? <==> RegexOk(re, b)
    ensures r.Some? ==> Represents(r.value, ms + Pairs(before + Matched(re, b, b.nodes), gi))
    ensures r.Some? ==> forall n :: n in r.value ==> n in nodes || fresh(n)
  {
    var matched := MatchedNodes(re, b);
    if matched.None? { return None; }
    var out := AppendNodes(nodes, matched.value, gi, ms + Pairs(before, gi));
    PairsConcat(before, matched.value, gi);
    assert ms + Pairs(before + matched.value, gi) == ms + Pairs(before, gi) + Pairs(matched.value, gi);
    return Some(out);
  }

  method CollectBindings(re: Regexp, nodes: seq<Node>, bs: seq<Binding>, gi: nat, ghost ms: seq<(NodeRow, nat)>)
    returns (r: Option<seq<Node>>)
    requires Represents(nodes, ms)
    ensures r.Some? <==> forall k :: 0 <= k < |bs| ==> RegexOk(re, bs[k])
    ensures r.Some? ==> Represents(r.value, ms + Pairs(BindingRows(re, bs), gi))
    ensures r.Some? ==> forall n :: n in r.value ==> n in nodes || fresh(n)
  {
    var out := nodes;
    assert ms + Pairs([], gi) == ms;
    for j := 0 to |bs|
      invariant Represents(out, ms + Pairs(BindingRows(re, bs[..j]), gi))
      invariant forall n :: n in out ==> n in nodes || fresh(n)
      invariant forall k :: 0 <= k < j ==> RegexOk(re, bs[k])
    {
      BindingRowsStep(re, bs, j);
      var more := AppendMatched(re, out, bs[j], gi, ms, BindingRows(re, bs[..j]));
      if more.None? {
        return None;
      }
      out := more.value;
    }
    assert bs[..|bs|] == bs;
    return Some(out);
  }

  /** One group's turn in "Find nodes in groups". */
  method CollectGroup(re: Regexp, nodes: seq<Node>, g: GroupRow, gi: nat, ghost ms: seq<(NodeRow, nat)>)
    returns (r: Option<seq<Node>>)
    requires Represents(nodes, ms)
    ensures r.Some? <==> RegexesOk(re, g)
    ensures r.Some? ==> Represents(r.value, ms + Pairs(MemberRows(re, g), gi))
    ensures r.Some? ==> forall n :: n in r.value ==> n in nodes || fresh(n)
  {
    var bound := CollectBindings(re, nodes, g.bindings, gi, ms);
    if bound.None? {
      return None;
    }
    ghost var all := ms + Pairs(BindingRows(re, g.bindings), gi);
    var out := AppendNodes(bound.value, g.solitary, gi, all);
    PairsConcat(BindingRows(re, g.bindings), g.solitary, gi);
    assert ms + Pairs(MemberRows(re, g), gi) == all + Pairs(g.solitary, gi);
    return Some(out);
  }

  /** On failure the error is the first group with a pattern that does not compile. */
  method CollectNodes(re: Regexp, groups: seq<GroupRow>) returns (r: Result<seq<Node>, GroupRow>)
    ensures r.Ok? <==> forall g :: g in groups ==> RegexesOk(re, g)
    ensures r.Ok? ==> Represents(r.value, Members(re, groups)) && forall n :: n in r.value ==> fresh(n)
    ensures r.Err? ==> r.error in groups && !RegexesOk(re, r.error)
  {
    var nodes: seq<Node> := [];
    for i := 0 to |groups|
      invariant Represents(nodes, Members(re, groups[..i]))
      invariant forall n :: n in nodes ==> fresh(n)
      invariant forall k :: 0 <= k < i ==> RegexesOk(re, groups[k])
    {
      var more := CollectGroup(re, nodes, groups[i], i, Members(re, groups[..i]));
      if more.None? {
        assert groups[i] in groups;
        return Err(groups[i]);
      }
      nodes := more.value;
      assert groups[..i + 1][..i] == groups[..i];
    }
    assert groups[..|groups|] == groups;
    return Ok(nodes);
  }

  // ---- deduplicateNodes ----

  ghost function GroupLists(nodes: seq<Node>): (r: seq<seq<nat>>)
    reads nodes
    ensures |r| == |nodes| && forall k :: 0 <= k < |nodes| ==> r[k] == nodes[k].groups
  {
    if nodes == [] then [] else GroupLists(nodes[..|nodes| - 1]) + [nodes[|nodes| - 1].groups]
  }

  /** The group lists of those of the first `i` nodes that have the link, one after the other. */
  ghost function Merged(nodes: seq<Node>, gs: seq<seq<nat>>, i: nat, link: string): seq<nat>
    requires i <= |nodes| == |gs|
  {
    if i == 0 then []
    else Merged(nodes, gs, i - 1, link) + if nodes[i - 1].dbNode.link == link then gs[i - 1] else []
  }

  lemma {:induction false} MergedHas(nodes: seq<Node>, gs: seq<seq<nat>>, i: nat, link: string, gi: nat)
    requires i <= |nodes| == |gs|
    ensures gi in Merged(nodes, gs, i, link) <==>
            exists k :: 0 <= k < i && nodes[k].dbNode.link == link && gi in gs[k]
  {
    if i != 0 {
      MergedHas(nodes, gs, i - 1, link, gi);
    }
  }

  /** `n` is the first of the nodes with its link. */
  ghost predicate FirstWithLink(nodes: seq<Node>, n: Node, k: nat)
  {
    k < |nodes| && nodes[k] == n && forall j :: 0 <= j < k ==> nodes[j].dbNode.link != n.dbNode.link
  }

  ghost predicate FirstBefore(nodes: seq<Node>, n: Node, i: nat)
  {
    exists k: nat :: k < i && FirstWithLink(nodes, n, k)
  }

  /** After `i` turns each link seen so far leads to the first node with it. */
  ghost predicate FirstsUpTo(nodes: seq<Node>, i: nat, byLink: map<string, Node>)
    requires i <= |nodes|
  {
    && (forall k :: 0 <= k < i ==> nodes[k].dbNode.link in byLink)
    && (forall l :: l in byLink ==> byLink[l].dbNode.link == l && FirstBefore(nodes, byLink[l], i))
  }

  /** These first nodes hold the merged groups; nodes not yet visited are as they were. */
  ghost predicate HeldUpTo(nodes: seq<Node>, gs: seq<seq<nat>>, i: nat, byLink: map<string, Node>)
    requires i <= |nodes| == |gs|
    reads nodes, byLink.Values
  {
    && (forall l :: l in byLink ==> byLink[l].groups == Merged(nodes, gs, i, l))
    && (forall k :: i <= k < |nodes| ==> nodes[k].groups == gs[k])
  }

  lemma {:induction false} MergedNone(nodes: seq<Node>, gs: seq<seq<nat>>, i: nat, l: string)
    requires i <= |nodes| == |gs| && forall k :: 0 <= k < i ==> nodes[k].dbNode.link != l
    ensures Merged(nodes, gs, i, l) == []
  {
    if i != 0 { MergedNone(nodes, gs, i - 1, l); }
  }

  lemma FirstsApart(nodes: seq<Node>, i: nat, byLink: map<string, Node>)
    requires i <= |nodes| && Distinct(nodes) && FirstsUpTo(nodes, i, byLink)
    ensures forall l, k :: l in byLink && i <= k < |nodes| ==> byLink[l] != nodes[k]
    ensures forall n :: n in byLink.Values ==> n in nodes
  {
    forall l, k | l in byLink && i <= k < |nodes| ensures byLink[l] != nodes[k] {
      assert FirstBefore(nodes, byLink[l], i);
    }
    forall n | n in byLink.Values ensures n in nodes {
      var l :| l in byLink && byLink[l] == n;
      assert FirstBefore(nodes, byLink[l], i);
    }
  }

  lemma FirstsStep(nodes: seq<Node>, i: nat, byLink: map<string, Node>)
    requires i < |nodes| && FirstsUpTo(nodes, i, byLink)
    ensures var l := nodes[i].dbNode.link;
            FirstsUpTo(nodes, i + 1, if l in byLink then byLink else byLink[l := nodes[i]])
  {
    forall l | l in byLink ensures FirstBefore(nodes, byLink[l], i + 1) {
      assert FirstBefore(nodes, byLink[l], i);
    }
    if nodes[i].dbNode.link !in byLink {
      assert FirstWithLink(nodes, nodes[i], i);
    }
  }

  /** One turn of the first loop of deduplicateNodes. */
  method MergeOne(nodes: seq<Node>, i: nat, m: map<string, Node>, ghost gs: seq<seq<nat>>)
    returns (byLink: map<string, Node>)
    requires i < |nodes| == |gs| && Distinct(nodes) && FirstsUpTo(nodes, i, m) && HeldUpTo(nodes, gs, i, m)
    modifies nodes`groups
    ensures FirstsUpTo(nodes, i + 1, byLink) && HeldUpTo(nodes, gs, i + 1, byLink)
  {
    byLink := m;
    var node := nodes[i];
    var link := node.dbNode.link;
    FirstsApart(nodes, i, m);
    FirstsStep(nodes, i, m);
    if link in byLink {
      var oldNode := byLink[link];
      assert oldNode in m.Values;
      oldNode.groups := oldNode.groups + node.groups;
    } else {
      MergedNone(nodes, gs, i, link);
      byLink := byLink[link := node];
    }
  }

  /** The first loop of deduplicateNodes: later nodes give their groups to the first with their link. */
  method MergeByLink(nodes: seq<Node>) returns (byLink: map<string, Node>)
    requires Distinct(nodes)
    modifies nodes`groups
    ensures FirstsUpTo(nodes, |nodes|, byLink)
    ensures HeldUpTo(nodes, old(GroupLists(nodes)), |nodes|, byLink)
  {
    byLink := map[];
    ghost var gs := GroupLists(nodes);
    for i := 0 to |nodes|
      invariant FirstsUpTo(nodes, i, byLink)
      invariant HeldUpTo(nodes, gs, i, byLink)
    {
      byLink := MergeOne(nodes, i, byLink, gs);
    }
  }

  /** One node per link; the kept node is the first with its link and serves every group of them all.
      The order is that of the map's iteration, so it is left open. */
  method DeduplicateNodes(nodes: seq<Node>) returns (ret: seq<Node>)
    requires Distinct(nodes)
    modifies nodes`groups
    ensures LinksDistinct(ret)
    ensures forall k :: 0 <= k < |nodes| ==> nodes[k].dbNode.link in Links(ret)
    ensures forall r :: r in ret ==> FirstBefore(nodes, r, |nodes|)
    ensures forall r :: r in ret ==> r.groups == Merged(nodes, old(GroupLists(nodes)), |nodes|, r.dbNode.link)
  {
    var byLink := MergeByLink(nodes);
    ret := InAnyOrder(byLink);
  }

  ghost function Links(nodes: seq<Node>): (r: seq<string>)
    ensures |r| == |nodes| && forall k :: 0 <= k < |r| ==> r[k] == nodes[k].dbNode.link
  {
    seq(|nodes|, k requires 0 <= k < |nodes| => nodes[k].dbNode.link)
  }

  ghost predicate LinksDistinct(nodes: seq<Node>)
  {
    Distinct(Links(nodes))
  }

  method InAnyOrder(byLink: map<string, Node>) returns (ret: seq<Node>)
    requires forall l :: l in byLink ==> byLink[l].dbNode.link == l
    ensures LinksDistinct(ret)
    ensures forall l :: l in Links(ret) <==> l in byLink
    ensures forall n :: n in ret ==> n in byLink.Values
  {
    ret := [];
    var left := byLink.Keys;
    while left != {}
      invariant left <= byLink.Keys
      invariant LinksDistinct(ret)
      invariant forall l :: l in Links(ret) <==> l in byLink && l !in left
      invariant forall k :: 0 <= k < |ret| ==> ret[k] in byLink.Values
      decreases left
    {
      var l :| l in left;
      assert Links(ret + [byLink[l]]) == Links(ret) + [l];
      ret := ret + [byLink[l]];
      left := left - {l};
    }
  }
}

/** Unique node names: `normNodeName` and `uniquefyNodesName` of
    graphql/service/config/mutation_utils.go. */
module NodeNames {
  import opened Wrappers
  import opened Text
  import opened Database
  import opened Sequences

  /** The compiler's working node: a database row, the groups (by index) it serves, and its name. */
  class Node {
    const dbNode: NodeRow
    var groups: seq<nat>
    var uniqueName: string

    constructor (row: NodeRow, group: nat)
      ensures dbNode == row && groups == [group]
    {
      dbNode := row;
      groups := [group];
      uniqueName := "";
    }
  }

  // ---- Base names and candidates ----

  predicate NameSafe(s: string)
  {
    forall i :: 0 <= i < |s| ==> s[i] != ':' && s[i] != '\''
  }

  /** What normNodeName is for: same length, safe as a key, untouched where it was safe. */
  ghost predicate Normalizes(name: string, ret: string)
  {
    && |ret| == |name|
    && NameSafe(ret)
    && (forall i :: 0 <= i < |name| ==> ret[i] == name[i] || (ret[i] == '_' && !NameSafe([name[i]])))
  }

  function Norm(name: string): (ret: string)
    ensures Normalizes(name, ret)
  {
    var ret := seq(|name|, i requires 0 <= i < |name| => if name[i] == ':' || name[i] == '\'' then '_' else name[i]);
    assert forall i :: 0 <= i < |name| && ret[i] != name[i] ==> !NameSafe([name[i]]) by {
      forall i | 0 <= i < |name| && ret[i] != name[i] ensures !NameSafe([name[i]]) {
        assert [name[i]][0] == ':' || [name[i]][0] == '\'';
      }
    }
    ret
  }

  method NormNodeName(name: string) returns (ret: string)
    ensures Normalizes(name, ret) && ret == Norm(name)
  {
    ret := "";
    for i := 0 to |name|
      invariant |ret| == i
      invariant forall k :: 0 <= k < i ==> ret[k] == Norm(name)[k]
    {
      var r := name[i];
      if r == ':' || r == '\'' {
        r := '_';
      }
      ret := ret + [r];
    }
  }

  function BaseName(row: NodeRow): (s: string)
  {
    match row.subscription
    case Some(id) => Dec(id) + "." + Norm(row.name)
    case None => Norm(row.name)
  }

  /** The wanted name after `k` failed probes: the base, then `.0`, `.1`, ... behind it. */
  function Candidate(base: string, k: nat): string
  {
    if k == 0 then base else base + "." + Dec(k - 1)
  }

  /** The base name is the normalized name, behind "<subscription id>." for a node of a subscription. */
  lemma BaseNameMeans(row: NodeRow)
    ensures row.subscription.None? ==> Normalizes(row.name, BaseName(row))
    ensures row.subscription.Some? ==>
              var (s, n) := (BaseName(row), |BaseName(row)| - |row.name|);
              && n >= 2 && Normalizes(row.name, s[n..]) && s[n - 1] == '.'
              && IsDigits(s[..n - 1], 10) && Value(s[..n - 1], 10) == row.subscription.value
  {
    if row.subscription.Some? {
      var digits := Dec(row.subscription.value);
      ValueOfRender(row.subscription.value, 10);
      var (s, n) := (BaseName(row), |BaseName(row)| - |row.name|);
      assert n == |digits| + 1 && s[..n - 1] == digits && s[n..] == Norm(row.name);
    }
  }

  /** Suffixes count from 0: the candidate after `k` failed probes ends in k - 1. */
  lemma CandidateMeans(base: string, k: nat)
    ensures Candidate(base, 0) == base
    ensures k > 0 ==>
              var (s, n) := (Candidate(base, k), |base|);
              && n + 1 < |s| && s[..n] == base && s[n] == '.'
              && IsDigits(s[n + 1..], 10) && Value(s[n + 1..], 10) == k - 1
  {
    if k > 0 {
      ValueOfRender(k - 1, 10);
      assert Candidate(base, k)[|base| + 1..] == Dec(k - 1);
    }
  }

  lemma CandidateInjective(base: string, i: nat, j: nat)
    requires Candidate(base, i) == Candidate(base, j)
    ensures i == j
  {
    if i != 0 && j != 0 {
      var n := |base + "."|;
      assert Candidate(base, i)[n..] == Dec(i - 1);
      assert Candidate(base, j)[n..] == Dec(j - 1);
      RenderInjective(i - 1, j - 1, 10);
    }
  }

  lemma DigitsSafe(s: string)
    requires IsDigits(s, 10)
    ensures NameSafe(s)
  {
    forall i | 0 <= i < |s| ensures s[i] != ':' && s[i] != '\'' {
      assert 0 <= DigitValue(s[i]) < 10;
    }
  }

  lemma CandidateSafe(row: NodeRow, k: nat)
    ensures NameSafe(Candidate(BaseName(row), k))
  {
    if row.subscription.Some? { DigitsSafe(Dec(row.subscription.value)); }
    if k > 0 { DigitsSafe(Dec(k - 1)); }
  }

  ghost function Probed(base: string, k: nat): set<string>
  {
    if k == 0 then {} else Probed(base, k - 1) + {Candidate(base, k - 1)}
  }

  lemma {:induction false} ProbedSize(base: string, k: nat)
    ensures |Probed(base, k)| == k
    ensures forall s :: s in Probed(base, k) <==> exists i: nat :: i < k && s == Candidate(base, i)
  {
    if k > 0 {
      ProbedSize(base, k - 1);
      forall i: nat | i < k - 1 ensures Candidate(base, i) != Candidate(base, k - 1) {
        if Candidate(base, i) == Candidate(base, k - 1) { CandidateInjective(base, i, k - 1); }
      }
    }
  }

  lemma SubsetSize<T>(a: set<T>, b: set<T>)
    requires a <= b
    ensures |a| <= |b|
  {
    assert b == a + (b - a);
  }

  /** Pigeonhole: if the first `k` candidates are all taken, there are at least `k` taken names. */
  lemma Pigeonhole(taken: set<string>, base: string, k: nat)
    requires forall i: nat :: i < k ==> Candidate(base, i) in taken
    ensures k <= |taken|
  {
    ProbedSize(base, k);
    SubsetSize(Probed(base, k), taken);
  }

  /** The search loop finds the first free candidate, with at most one probe more than taken names. */
  method FreeName(taken: set<string>, base: string) returns (name: string, failed: nat)
    ensures name == Candidate(base, failed) && name !in taken
    ensures forall i: nat :: i < failed ==> Candidate(base, i) in taken
    ensures failed <= |taken|
  {
    name := base;
    failed := 0;
    while name in taken
      invariant name == Candidate(base, failed)
      invariant forall i: nat :: i < failed ==> Candidate(base, i) in taken
      decreases |taken| - failed
    {
      Pigeonhole(taken, base, failed + 1);
      name := base + "." + Dec(failed);
      failed := failed + 1;
    }
    Pigeonhole(taken, base, failed);
  }

  // ---- Stable sort by "has a tag" ----

  function Tagged(nodes: seq<Node>): (r: seq<Node>)
    ensures forall i :: 0 <= i < |r| ==> r[i] in nodes && r[i].dbNode.tag.Some?
    ensures forall i :: 0 <= i < |nodes| && nodes[i].dbNode.tag.Some? ==> nodes[i] in r
  {
    if nodes == [] then []
    else Tagged(nodes[..|nodes| - 1]) + if nodes[|nodes| - 1].dbNode.tag.Some? then [nodes[|nodes| - 1]] else []
  }

  function Untagged(nodes: seq<Node>): (r: seq<Node>)
    ensures forall i :: 0 <= i < |r| ==> r[i] in nodes && r[i].dbNode.tag.None?
    ensures forall i :: 0 <= i < |nodes| && nodes[i].dbNode.tag.None? ==> nodes[i] in r
  {
    if nodes == [] then []
    else Untagged(nodes[..|nodes| - 1]) + if nodes[|nodes| - 1].dbNode.tag.None? then [nodes[|nodes| - 1]] else []
  }

  /** `sort.SliceStable` under "has a tag": tagged nodes first, each part in its old order. */
  function TaggedFirst(nodes: seq<Node>): seq<Node>
  {
    Tagged(nodes) + Untagged(nodes)
  }

  /** Node `p` of the sorted list stands before node `q`, as in the old list. */
  ghost predicate KeepsOrder(nodes: seq<Node>, a: Node, b: Node)
  {
    exists i, j :: 0 <= i < j < |nodes| && nodes[i] == a && nodes[j] == b
  }

  lemma OrderInFront(nodes: seq<Node>, a: Node, b: Node)
    requires nodes != [] && KeepsOrder(nodes[..|nodes| - 1], a, b)
    ensures KeepsOrder(nodes, a, b)
  {
    var front := nodes[..|nodes| - 1];
    var i, j :| 0 <= i < j < |front| && front[i] == a && front[j] == b;
    assert nodes[i] == a && nodes[j] == b;
  }

  lemma OrderAtEnd(nodes: seq<Node>, a: Node)
    requires nodes != [] && a in nodes[..|nodes| - 1]
    ensures KeepsOrder(nodes, a, nodes[|nodes| - 1])
  {
    var i :| 0 <= i < |nodes| - 1 && nodes[..|nodes| - 1][i] == a;
    assert nodes[i] == a;
  }

  lemma {:induction false} TaggedInOrder(nodes: seq<Node>, p: nat, q: nat)
    requires p < q < |Tagged(nodes)|
    ensures KeepsOrder(nodes, Tagged(nodes)[p], Tagged(nodes)[q])
  {
    var front := Tagged(nodes[..|nodes| - 1]);
    if q < |front| {
      TaggedInOrder(nodes[..|nodes| - 1], p, q);
      OrderInFront(nodes, Tagged(nodes)[p], Tagged(nodes)[q]);
    } else {
      assert front[p] in nodes[..|nodes| - 1];
      OrderAtEnd(nodes, front[p]);
    }
  }

  lemma {:induction false} UntaggedInOrder(nodes: seq<Node>, p: nat, q: nat)
    requires p < q < |Untagged(nodes)|
    ensures KeepsOrder(nodes, Untagged(nodes)[p], Untagged(nodes)[q])
  {
    var front := Untagged(nodes[..|nodes| - 1]);
    if q < |front| {
      UntaggedInOrder(nodes[..|nodes| - 1], p, q);
      OrderInFront(nodes, Untagged(nodes)[p], Untagged(nodes)[q]);
    } else {
      assert front[p] in nodes[..|nodes| - 1];
      OrderAtEnd(nodes, front[p]);
    }
  }

  /** The sort is stable: two nodes that both have a tag, or both have none, stay in their order. */
  lemma TaggedFirstIsStable(nodes: seq<Node>, p: nat, q: nat)
    requires p < q < |TaggedFirst(nodes)|
    requires TaggedFirst(nodes)[p].dbNode.tag.Some? == TaggedFirst(nodes)[q].dbNode.tag.Some?
    ensures KeepsOrder(nodes, TaggedFirst(nodes)[p], TaggedFirst(nodes)[q])
  {
    var (t, u) := (Tagged(nodes), Untagged(nodes));
    if q < |t| {
      TaggedInOrder(nodes, p, q);
    } else if p >= |t| {
      UntaggedInOrder(nodes, p - |t|, q - |t|);
    } else {
      assert false;
    }
  }

  lemma {:induction false} PartsKeep(nodes: seq<Node>)
    requires Distinct(nodes)
    ensures Distinct(Tagged(nodes)) && Distinct(Untagged(nodes))
    ensures |Tagged(nodes)| + |Untagged(nodes)| == |nodes|
  {
    if nodes != [] {
      var front, last := nodes[..|nodes| - 1], nodes[|nodes| - 1];
      PartsKeep(front);
      assert last !in front;
    }
  }

  lemma TaggedFirstIsSort(nodes: seq<Node>)
    requires Distinct(nodes)
    ensures |TaggedFirst(nodes)| == |nodes| && Distinct(TaggedFirst(nodes))
    ensures forall n :: n in TaggedFirst(nodes) <==> n in nodes
    ensures TagsLead(TaggedFirst(nodes))
  {
    PartsKeep(nodes);
    var t, u := Tagged(nodes), Untagged(nodes);
    var r := TaggedFirst(nodes);
    forall i, j | 0 <= i < j < |r| ensures r[i] != r[j] && (r[j].dbNode.tag.Some? ==> r[i].dbNode.tag.Some?) {
      if i < |t| { assert r[i] in t; } else { assert r[i] in u; }
      if j < |t| { assert r[j] in t; } else { assert r[j] in u; }
    }
  }

  ghost predicate TagsLead(nodes: seq<Node>)
  {
    forall i, j :: 0 <= i < j < |nodes| && nodes[j].dbNode.tag.Some? ==> nodes[i].dbNode.tag.Some?
  }

  // ---- Naming ----

  /** `nm` is the list of names chosen for the nodes, in order: a tag as it is; otherwise the
      first candidate that no earlier node has. */
  ghost predicate Chosen(nodes: seq<Node>, nm: seq<string>)
  {
    && |nm| <= |nodes|
    && (forall k :: 0 <= k < |nm| ==> ChosenAt(nodes[k].dbNode, nm, k))
  }

  ghost predicate ChosenAt(row: NodeRow, nm: seq<string>, k: nat)
    requires k < |nm|
  {
    match row.tag
    case Some(tag) => nm[k] == tag
    case None =>
      && (forall j :: 0 <= j < k ==> nm[j] != nm[k])
      && exists f: nat :: nm[k] == Candidate(BaseName(row), f) && FirstFree(BaseName(row), f, nm[..k])
  }

  ghost predicate FirstFree(base: string, f: nat, earlier: seq<string>)
  {
    forall i: nat :: i < f ==> Candidate(base, i) in earlier
  }

  /** A later node carries the same tag, so that node's entry replaces this one's. */
  ghost predicate Shadowed(nodes: seq<Node>, k: nat)
    requires k < |nodes|
  {
    exists j :: k < j < |nodes| && nodes[k].dbNode.tag.Some? && nodes[j].dbNode.tag == nodes[k].dbNode.tag
  }

  ghost predicate LastIs(nm: seq<string>, s: string, k: nat)
  {
    k < |nm| && nm[k] == s && forall j :: k < j < |nm| ==> nm[j] != s
  }

  /** nameToNodes after the nodes named so far: each name leads to its last owner. */
  ghost predicate Indexed(nodes: seq<Node>, nm: seq<string>, names: map<string, Node>)
    requires |nm| <= |nodes|
  {
    && (forall k :: 0 <= k < |nm| ==> nm[k] in names)
    && (forall s :: s in names ==> exists k: nat :: LastIs(nm, s, k) && names[s] == nodes[k])
  }

  lemma ChosenExtends(nodes: seq<Node>, nm: seq<string>, s: string)
    requires Chosen(nodes, nm) && |nm| < |nodes|
    requires ChosenAt(nodes[|nm|].dbNode, nm + [s], |nm|)
    ensures Chosen(nodes, nm + [s])
  {
    forall k | 0 <= k < |nm| ensures ChosenAt(nodes[k].dbNode, nm + [s], k) {
      assert (nm + [s])[..k] == nm[..k];
    }
  }

  lemma IndexedExtends(nodes: seq<Node>, nm: seq<string>, names: map<string, Node>, s: string)
    requires |nm| < |nodes| && Indexed(nodes, nm, names)
    ensures Indexed(nodes, nm + [s], names[s := nodes[|nm|]])
  {
    var nm', names' := nm + [s], names[s := nodes[|nm|]];
    forall t | t in names' ensures exists k: nat :: LastIs(nm', t, k) && names'[t] == nodes[k] {
      if t == s {
        assert LastIs(nm', t, |nm|);
      } else {
        var k: nat :| LastIs(nm, t, k) && names[t] == nodes[k];
        assert LastIs(nm', t, k);
      }
    }
  }

  lemma LaterOwnerShadows(nodes: seq<Node>, nm: seq<string>, k: nat, j: nat)
    requires |nm| == |nodes| && Chosen(nodes, nm) && TagsLead(nodes)
    requires k < j < |nodes| && nm[j] == nm[k]
    ensures Shadowed(nodes, k)
  {
    assert ChosenAt(nodes[j].dbNode, nm, j) && ChosenAt(nodes[k].dbNode, nm, k);
  }

  lemma LastOwner(nodes: seq<Node>, nm: seq<string>, names: map<string, Node>, k: nat) returns (j: nat)
    requires |nm| == |nodes| && Indexed(nodes, nm, names) && k < |nodes|
    ensures k <= j < |nodes| && nm[j] == nm[k] && nm[k] in names && names[nm[k]] == nodes[j]
  {
    j :| LastIs(nm, nm[k], j) && names[nm[k]] == nodes[j];
  }

  /** Every node owns its chosen name, unless a later node has the same tag. */
  lemma OwnName(nodes: seq<Node>, nm: seq<string>, names: map<string, Node>, k: nat)
    requires |nm| == |nodes| && Chosen(nodes, nm) && Indexed(nodes, nm, names) && TagsLead(nodes)
    requires k < |nodes|
    ensures Shadowed(nodes, k) || (nm[k] in names && names[nm[k]] == nodes[k])
  {
    var j := LastOwner(nodes, nm, names, k);
    if k < j { LaterOwnerShadows(nodes, nm, k, j); }
  }

  lemma ShadowedUnnamed(nodes: seq<Node>, nm: seq<string>, names: map<string, Node>, k: nat)
    requires |nm| == |nodes| && Distinct(nodes) && Chosen(nodes, nm) && Indexed(nodes, nm, names)
    requires k < |nodes| && Shadowed(nodes, k)
    ensures nodes[k] !in names.Values
  {
    var j :| k < j < |nodes| && nodes[j].dbNode.tag == nodes[k].dbNode.tag;
    assert ChosenAt(nodes[j].dbNode, nm, j) && ChosenAt(nodes[k].dbNode, nm, k);
    assert nm[j] == nm[k];
    forall s | s in names ensures names[s] != nodes[k] {
      var i: nat :| LastIs(nm, s, i) && names[s] == nodes[i];
    }
  }

  lemma IndexInjective(nodes: seq<Node>, nm: seq<string>, names: map<string, Node>, s: string, t: string)
    requires |nm| == |nodes| && Distinct(nodes) && Indexed(nodes, nm, names)
    requires s in names && t in names && names[s] == names[t]
    ensures s == t
  {
    var i: nat :| LastIs(nm, s, i) && names[s] == nodes[i];
    var j: nat :| LastIs(nm, t, j) && names[t] == nodes[j];
    if i < j {} else if j < i {}
  }

  /** The map leads from each name to exactly the node that keeps it. */
  lemma Owners(nodes: seq<Node>, nm: seq<string>, names: map<string, Node>)
    requires |nm| == |nodes| && Distinct(nodes) && TagsLead(nodes) && Chosen(nodes, nm) && Indexed(nodes, nm, names)
    ensures forall s, t :: s in names && t in names && names[s] == names[t] ==> s == t
    ensures forall n :: n in names.Values ==> n in nodes
    ensures forall k :: 0 <= k < |nodes| ==> Shadowed(nodes, k) == (nodes[k] !in names.Values)
    ensures forall k :: 0 <= k < |nodes| && !Shadowed(nodes, k) ==> nm[k] in names && names[nm[k]] == nodes[k]
  {
    forall s, t | s in names && t in names && names[s] == names[t] ensures s == t {
      IndexInjective(nodes, nm, names, s, t);
    }
    forall n | n in names.Values ensures n in nodes {
      var s :| s in names && names[s] == n;
      var k: nat :| LastIs(nm, s, k) && names[s] == nodes[k];
    }
    forall k | 0 <= k < |nodes| ensures Shadowed(nodes, k) == (nodes[k] !in names.Values) {
      if Shadowed(nodes, k) { ShadowedUnnamed(nodes, nm, names, k); } else { OwnName(nodes, nm, names, k); }
    }
    forall k | 0 <= k < |nodes| && !Shadowed(nodes, k) ensures nm[k] in names && names[nm[k]] == nodes[k] {
      OwnName(nodes, nm, names, k);
    }
  }

  lemma NamesComeFrom(nodes: seq<Node>, nm: seq<string>, names: map<string, Node>)
    requires |nm| <= |nodes| && Indexed(nodes, nm, names)
    ensures forall s :: s in names <==> s in nm
  {
    forall s | s in names ensures s in nm {
      var k: nat :| LastIs(nm, s, k) && names[s] == nodes[k];
    }
  }

  method SortTaggedFirst(a: array<Node>)
    requires Distinct(a[..])
    modifies a
    ensures a[..] == TaggedFirst(old(a[..]))
  {
    TaggedFirstIsSort(a[..]);
    var sorted := TaggedFirst(a[..]);
    forall i | 0 <= i < a.Length { a[i] := sorted[i]; }
    assert a[..] == sorted;
  }

  /** The naming loop. It ends on every input, since each search for a free name does. */
  method ChooseNames(nodes: seq<Node>) returns (names: map<string, Node>, nm: seq<string>)
    ensures |nm| == |nodes| && Chosen(nodes, nm) && Indexed(nodes, nm, names)
  {
    names := map[];
    nm := [];
    for i := 0 to |nodes|
      invariant |nm| == i && Chosen(nodes, nm) && Indexed(nodes, nm, names)
    {
      var row := nodes[i].dbNode;
      var name;
      match row.tag {
        case Some(tag) =>
          name := tag;
        case None =>
          var baseName := NormNodeName(row.name);
          if row.subscription.Some? {
            baseName := Dec(row.subscription.value) + "." + baseName;
          }
          var failed;
          name, failed := FreeName(names.Keys, baseName);
          NamesComeFrom(nodes, nm, names);
          assert baseName == BaseName(row) && FirstFree(baseName, failed, nm);
      }
      assert (nm + [name])[..i] == nm;
      assert ChosenAt(row, nm + [name], i);
      ChosenExtends(nodes, nm, name);
      IndexedExtends(nodes, nm, names, name);
      names := names[name := nodes[i]];
      nm := nm + [name];
    }
  }

  /** The closing loop over the map, whose keys Go visits in any order. */
  method AssignNames(names: map<string, Node>)
    requires forall s, t :: s in names && t in names && names[s] == names[t] ==> s == t
    modifies names.Values`uniqueName
    ensures forall s :: s in names ==> names[s].uniqueName == s
  {
    var left := names.Keys;
    while left != {}
      invariant left <= names.Keys
      invariant forall s :: s in names && s !in left ==> names[s].uniqueName == s
      decreases left
    {
      var s :| s in left;
      assert names[s] in names.Values;
      names[s].uniqueName := s;
      left := left - {s};
    }
  }

  /** The naming part: each node that no later node shadows gets its chosen name, and the
      shadowed ones stay as they were. */
  method NameNodes(nodes: seq<Node>) returns (ghost nm: seq<string>)
    requires Distinct(nodes) && TagsLead(nodes)
    modifies nodes`uniqueName
    ensures |nm| == |nodes| && Chosen(nodes, nm)
    ensures forall k :: 0 <= k < |nodes| && !Shadowed(nodes, k) ==> nodes[k].uniqueName == nm[k]
    ensures forall k :: 0 <= k < |nodes| && Shadowed(nodes, k) ==> nodes[k].uniqueName == old(nodes[k].uniqueName)
  {
    var names, chosen := ChooseNames(nodes);
    nm := chosen;
    Owners(nodes, nm, names);
    AssignNames(names);
  }

  /** `uniquefyNodesName`: sorts the slice in place, then names its nodes. */
  method UniquefyNodesName(a: array<Node>) returns (ghost nm: seq<string>)
    requires Distinct(a[..])
    modifies a, a[..]`uniqueName
    ensures a[..] == TaggedFirst(old(a[..]))
    ensures |nm| == a.Length && Chosen(a[..], nm)
    ensures forall k :: 0 <= k < a.Length && !Shadowed(a[..], k) ==> a[k].uniqueName == nm[k]
  {
    TaggedFirstIsSort(a[..]);
    SortTaggedFirst(a);
    nm := NameNodes(a[..]);
  }
}

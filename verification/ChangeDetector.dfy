/** The change detector: what `Run` records (graphql/service/config/mutation_utils.go) and what
    `Modified` compares with it later (graphql/service/general/dae_resolver.go). */
module ChangeDetector {
  import opened Wrappers
  import opened Text
  import opened Sequences
  import opened Tables
  import opened NodeImport
  import opened Store
  import opened StoreHistory

  // ---- The two fingerprints ----

  function VersionOf(t: Table<Group>, id: nat): nat
  {
    if id in t.rows then t.rows[id].version else 0
  }

  function VersionSum(t: Table<Group>, ids: seq<nat>): nat
  {
    if ids == [] then 0 else VersionSum(t, ids[..|ids| - 1]) + VersionOf(t, ids[|ids| - 1])
  }

  function HexAll(ids: seq<nat>): (r: seq<string>)
    ensures |r| == |ids| && forall k :: 0 <= k < |ids| ==> r[k] == Hex(ids[k])
  {
    seq(|ids|, k requires 0 <= k < |ids| => Hex(ids[k]))
  }

  function IdString(ids: seq<nat>): string
  {
    Join(Sort(HexAll(ids)))
  }

  lemma HexJoinable(ids: seq<nat>)
    ensures Joinable(Sort(HexAll(ids)))
  {
    var r := Sort(HexAll(ids));
    forall i | 0 <= i < |r| ensures r[i] != [] && ',' !in r[i] {
      assert r[i] in multiset(HexAll(ids));
      var k :| 0 <= k < |ids| && HexAll(ids)[k] == r[i];
      var h := Hex(ids[k]);
      forall c | 0 <= c < |h| ensures h[c] != ',' {
        assert 0 <= DigitValue(h[c]) < 16;
      }
    }
  }

  /** The id string tells the id set: equal strings, equal sets. */
  lemma IdStringInjective(a: seq<nat>, b: seq<nat>)
    requires IdString(a) == IdString(b)
    ensures forall id :: id in a <==> id in b
  {
    HexJoinable(a);
    HexJoinable(b);
    JoinInjective(Sort(HexAll(a)), Sort(HexAll(b)));
    assert multiset(HexAll(a)) == multiset(HexAll(b));
    forall id ensures id in a ==> id in b { HexMember(a, b, id); }
    forall id ensures id in b ==> id in a { HexMember(b, a, id); }
  }

  /** The ids are listed in hexadecimal. */
  lemma HexMeans(n: nat)
    ensures IsDigits(Hex(n), 16) && Value(Hex(n), 16) == n
  {
    ValueOfRender(n, 16);
  }

  lemma HexMember(a: seq<nat>, b: seq<nat>, id: nat)
    requires multiset(HexAll(a)) == multiset(HexAll(b))
    ensures id in a ==> id in b
  {
    if id in a {
      var i :| 0 <= i < |a| && a[i] == id;
      assert HexAll(a)[i] in multiset(HexAll(b));
      var j :| 0 <= j < |b| && HexAll(b)[j] == HexAll(a)[i];
      RenderInjective(a[i], b[j], 16);
    }
  }

  lemma TakeOut(b: seq<nat>, x: nat) returns (i: nat)
    requires x in multiset(b)
    ensures i < |b| && b == b[..i] + [x] + b[i + 1..]
    ensures multiset(b[..i] + b[i + 1..]) == multiset(b) - multiset{x}
  {
    i :| 0 <= i < |b| && b[i] == x;
    assert b == b[..i] + [x] + b[i + 1..];
  }

  lemma HexAllConcat(a: seq<nat>, b: seq<nat>)
    ensures HexAll(a + b) == HexAll(a) + HexAll(b)
  {
  }

  lemma {:induction false} HexAllPermutes(a: seq<nat>, b: seq<nat>)
    requires multiset(a) == multiset(b)
    ensures multiset(HexAll(a)) == multiset(HexAll(b))
  {
    if a == [] {
      assert |multiset(b)| == 0;
    } else {
      assert a == [a[0]] + a[1..];
      var i := TakeOut(b, a[0]);
      var rest := b[..i] + b[i + 1..];
      HexAllPermutes(a[1..], rest);
      HexAllConcat([a[0]], a[1..]);
      HexAllConcat(b[..i] + [a[0]], b[i + 1..]);
      HexAllConcat(b[..i], [a[0]]);
      HexAllConcat(b[..i], b[i + 1..]);
    }
  }

  lemma {:induction false} VersionSumConcat(t: Table<Group>, a: seq<nat>, b: seq<nat>)
    ensures VersionSum(t, a + b) == VersionSum(t, a) + VersionSum(t, b)
  {
    if b == [] {
      assert a + b == a;
    } else {
      VersionSumConcat(t, a, b[..|b| - 1]);
      assert (a + b)[..|a + b| - 1] == a + b[..|b| - 1];
    }
  }

  lemma {:induction false} VersionSumPermutes(t: Table<Group>, a: seq<nat>, b: seq<nat>)
    requires multiset(a) == multiset(b)
    ensures VersionSum(t, a) == VersionSum(t, b)
  {
    if a == [] {
      assert |multiset(b)| == 0;
    } else {
      var n := |a| - 1;
      assert a == a[..n] + [a[n]];
      var i := TakeOut(b, a[n]);
      VersionSumPermutes(t, a[..n], b[..i] + b[i + 1..]);
      VersionSumConcat(t, b[..i], b[i + 1..]);
      VersionSumConcat(t, b[..i] + [a[n]], b[i + 1..]);
      VersionSumConcat(t, b[..i], [a[n]]);
    }
  }

  lemma {:induction false} SameElements(a: seq<nat>, b: seq<nat>)
    requires Distinct(a) && Distinct(b) && forall id :: id in a <==> id in b
    ensures multiset(a) == multiset(b)
  {
    forall id ensures multiset(a)[id] == multiset(b)[id] {
      Multiplicity(a, id);
      Multiplicity(b, id);
    }
  }

  lemma {:induction false} Multiplicity(a: seq<nat>, id: nat)
    requires Distinct(a)
    ensures multiset(a)[id] == if id in a then 1 else 0
  {
    if a != [] {
      var n := |a| - 1;
      assert a == a[..n] + [a[n]];
      Multiplicity(a[..n], id);
    }
  }

  /** If no version decreased, equal sums mean that every single version is equal. */
  lemma {:induction false} EqualSums(t0: Table<Group>, t: Table<Group>, ids: seq<nat>)
    requires forall id :: id in ids ==> VersionOf(t0, id) <= VersionOf(t, id)
    ensures VersionSum(t0, ids) <= VersionSum(t, ids)
    ensures VersionSum(t0, ids) == VersionSum(t, ids) <==>
            forall id :: id in ids ==> VersionOf(t0, id) == VersionOf(t, id)
  {
    if ids != [] {
      var n := |ids| - 1;
      EqualSums(t0, t, ids[..n]);
      assert forall id :: id in ids <==> id in ids[..n] || id == ids[n];
    }
  }

  // ---- Recording a run ----

  /** What a run loaded: the selected sections and the groups that routing needed, in query order. */
  datatype Recording = Recording(config: nat, dns: nat, routing: nat, groups: seq<nat>)

  function Pick(r: Recording, k: Kind): nat
  {
    match k case Global => r.config case Dns => r.dns case Routing => r.routing
  }

  predicate IsSelected(s: Store, k: Kind, id: nat)
  {
    id in Sections(s, k).rows && Sections(s, k).rows[id].selected
  }

  ghost predicate Recordable(s: Store, r: Recording)
  {
    && (forall k :: IsSelected(s, k, Pick(r, k)))
    && Distinct(r.groups) && (forall id :: id in r.groups ==> id in s.groups.rows)
  }

  function RefTo(s: Store, k: Kind, id: nat): Ref
    requires id in Sections(s, k).rows
  {
    Ref(id, Sections(s, k).rows[id].version)
  }

  function Marked(t: Table<Group>, ids: seq<nat>): Table<Group>
  {
    Table(map g | g in t.rows :: t.rows[g].(running := g in ids), t.next)
  }

  /** "Save running status", including the replacement of RunningGroups. */
  function Recorded(s: Store, r: Recording): Store
    requires forall k :: IsSelected(s, k, Pick(r, k))
  {
    assert IsSelected(s, Global, Pick(r, Global)) && IsSelected(s, Dns, Pick(r, Dns)) &&
           IsSelected(s, Routing, Pick(r, Routing));
    s.(groups := Marked(s.groups, r.groups),
       sys := Sys(true, Some(RefTo(s, Global, r.config)), Some(RefTo(s, Dns, r.dns)),
                  Some(RefTo(s, Routing, r.routing)),
                  VersionSum(s.groups, r.groups), IdString(r.groups)))
  }

  lemma RecordedRef(s: Store, r: Recording, k: Kind)
    requires Recordable(s, r)
    ensures Running(Recorded(s, r), k) == Some(RefTo(s, k, Pick(r, k))) && Sections(Recorded(s, r), k) == Sections(s, k)
  {
  }

  lemma RecordedInv(s: Store, r: Recording)
    requires StoreInv(s) && Recordable(s, r)
    ensures StoreInv(Recorded(s, r))
  {
    var s' := Recorded(s, r);
    forall k ensures KeysBelow(Sections(s', k)) && Exclusive(Sections(s', k)) {
      assert KeysBelow(Sections(s, k)) && Exclusive(Sections(s, k));
    }
    forall g | g in s'.groups.rows ensures GroupKnown(s', s'.groups.rows[g]) {
      assert GroupKnown(s, s.groups.rows[g]);
    }
  }

  lemma {:induction false} MarkedSum(t: Table<Group>, marks: seq<nat>, ids: seq<nat>)
    ensures VersionSum(Marked(t, marks), ids) == VersionSum(t, ids)
  {
    if ids != [] { MarkedSum(t, marks, ids[..|ids| - 1]); }
  }

  // ---- Modified ----

  function RunningIds(t: Table<Group>): set<nat>
  {
    set g | g in t.rows && t.rows[g].running
  }

  ghost predicate Lists(ids: seq<nat>, s: set<nat>)
  {
    Distinct(ids) && forall id :: id in ids <==> id in s
  }

  /** The running section of the kind is the selected one, in the recorded version. */
  ghost predicate RefCurrent(s: Store, k: Kind)
  {
    exists id :: IsSelected(s, k, id) && Running(s, k) == Some(RefTo(s, k, id))
  }

  ghost predicate GroupsCurrent(s: Store, ids: seq<nat>)
  {
    ids != [] && VersionSum(s.groups, ids) == s.sys.versionSum && IdString(ids) == s.sys.groupIds
  }

  ghost predicate Unmodified(s: Store)
  {
    (forall k :: RefCurrent(s, k)) && exists ids :: Lists(ids, RunningIds(s.groups)) && GroupsCurrent(s, ids)
  }

  /** Neither fingerprint depends on the order of the ids. */
  lemma SameFingerprints(t: Table<Group>, a: seq<nat>, b: seq<nat>)
    requires multiset(a) == multiset(b)
    ensures VersionSum(t, a) == VersionSum(t, b) && IdString(a) == IdString(b) && (a == [] <==> b == [])
  {
    VersionSumPermutes(t, a, b);
    HexAllPermutes(a, b);
    SortCanonical(HexAll(a), HexAll(b));
    assert |multiset(a)| == |a| && |multiset(b)| == |b|;
  }

  /** The order in which the database returns the running groups does not matter. */
  lemma OrderIrrelevant(s: Store, a: seq<nat>, b: seq<nat>)
    requires Lists(a, RunningIds(s.groups)) && Lists(b, RunningIds(s.groups))
    ensures GroupsCurrent(s, a) <==> GroupsCurrent(s, b)
  {
    SameElements(a, b);
    SameFingerprints(s.groups, a, b);
  }

  /** The query for the selected row. */
  method FirstSelected(t: Table<Section>) returns (r: Option<nat>)
    ensures r.None? ==> forall id :: id in t.rows ==> !t.rows[id].selected
    ensures r.Some? ==> r.value in t.rows && t.rows[r.value].selected
  {
    var ids := set id | id in t.rows && t.rows[id].selected;
    if ids == {} {
      assert forall id :: id in t.rows ==> id !in ids;
      return None;
    }
    var id :| id in ids;
    return Some(id);
  }

  /** The query for RunningGroups, in whatever order. */
  method ListRunning(t: Table<Group>) returns (ids: seq<nat>)
    ensures Lists(ids, RunningIds(t))
  {
    ids := [];
    var left := RunningIds(t);
    while left != {}
      invariant left <= RunningIds(t)
      invariant Distinct(ids) && forall id :: id in ids <==> id in RunningIds(t) && id !in left
      decreases left
    {
      var id :| id in left;
      ids := ids + [id];
      left := left - {id};
    }
  }

  method GroupsMatch(s: Store, ids: seq<nat>) returns (same: bool)
    requires forall id :: id in ids ==> id in s.groups.rows
    ensures same <==> VersionSum(s.groups, ids) == s.sys.versionSum && IdString(ids) == s.sys.groupIds
  {
    var gvs := 0;
    var gids: seq<string> := [];
    for k := 0 to |ids|
      invariant gvs == VersionSum(s.groups, ids[..k]) && gids == HexAll(ids[..k])
    {
      assert ids[..k + 1][..k] == ids[..k];
      gvs := gvs + s.groups.rows[ids[k]].version;
      gids := gids + [Hex(ids[k])];
    }
    assert ids[..|ids|] == ids;
    gids := Sort(gids);
    return gvs == s.sys.versionSum && Join(gids) == s.sys.groupIds;
  }

  ghost predicate NothingSelected(s: Store, k: Kind)
  {
    forall id :: !IsSelected(s, k, id)
  }

  /** `Modified`: while running it answers false exactly on the unmodified stores, and fails exactly when
      some kind has no selected row. The ids it dereferences are those of a recorded run. */
  method Modified(s: Store) returns (modified: bool, failed: bool)
    requires SectionsInv(s)
    requires s.sys.running ==> forall k :: Running(s, k).Some?
    ensures !s.sys.running ==> !modified && !failed
    ensures failed <==> s.sys.running && exists k :: NothingSelected(s, k)
    ensures s.sys.running ==> (modified <==> !Unmodified(s))
  {
    if !s.sys.running {
      return false, false;
    }
    var c := FirstSelected(s.configs);
    if c.None? {
      assert NothingSelected(s, Global) && !RefCurrent(s, Global);
      return true, true;
    }
    var d := FirstSelected(s.dnss);
    if d.None? {
      assert NothingSelected(s, Dns) && !RefCurrent(s, Dns);
      return true, true;
    }
    var r := FirstSelected(s.routings);
    if r.None? {
      assert NothingSelected(s, Routing) && !RefCurrent(s, Routing);
      return true, true;
    }
    assert IsSelected(s, Global, c.value) && IsSelected(s, Dns, d.value) && IsSelected(s, Routing, r.value);
    assert forall k :: !NothingSelected(s, k) by {
      forall k ensures !NothingSelected(s, k) { match k case Global => case Dns => case Routing => }
    }
    var ids := ListRunning(s.groups);
    CurrentExactly(s, Global, c.value);
    CurrentExactly(s, Dns, d.value);
    CurrentExactly(s, Routing, r.value);
    UnmodifiedBy(s, ids);
    AllKinds(s);
    if s.configs.rows[c.value].version != s.sys.config.value.version || c.value != s.sys.config.value.id
       || s.dnss.rows[d.value].version != s.sys.dns.value.version || d.value != s.sys.dns.value.id
       || s.routings.rows[r.value].version != s.sys.routing.value.version || r.value != s.sys.routing.value.id
       || |ids| == 0 {
      return true, false;
    }
    var same := GroupsMatch(s, ids);
    return !same, false;
  }

  lemma CurrentExactly(s: Store, k: Kind, id: nat)
    requires SectionsInv(s) && IsSelected(s, k, id)
    ensures RefCurrent(s, k) <==> Running(s, k) == Some(RefTo(s, k, id))
  {
    assert Exclusive(Sections(s, k));
  }

  lemma AllKinds(s: Store)
    ensures (forall k :: RefCurrent(s, k)) <==> RefCurrent(s, Global) && RefCurrent(s, Dns) && RefCurrent(s, Routing)
  {
    if RefCurrent(s, Global) && RefCurrent(s, Dns) && RefCurrent(s, Routing) {
      forall k ensures RefCurrent(s, k) { match k case Global => case Dns => case Routing => }
    }
  }

  lemma UnmodifiedBy(s: Store, ids: seq<nat>)
    requires Lists(ids, RunningIds(s.groups))
    ensures Unmodified(s) <==> (forall k :: RefCurrent(s, k)) && GroupsCurrent(s, ids)
  {
    if other :| Lists(other, RunningIds(s.groups)) && GroupsCurrent(s, other) {
      OrderIrrelevant(s, ids, other);
    }
  }
}

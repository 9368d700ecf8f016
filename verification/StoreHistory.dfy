/** What holds between an earlier and a later store, whatever mutations came between: versions never
    decrease, ids never return, and a running group that keeps its version keeps its row, its bindings and
    its members; if mutations were used as documented, also what it draws on. */
module StoreHistory {
  import opened Wrappers
  import opened Database
  import opened Tables
  import opened NodeImport
  import opened SubscriptionRefresh
  import opened Store

  // ---- Content ----

  /** The rows a group draws on: its members, and the nodes of the subscriptions bound to it. */
  ghost predicate Draws(s: Store, g: Group, id: nat)
  {
    id in s.nodes.rows && (id in g.members ||
      (s.nodes.rows[id].subscription.Some? && s.nodes.rows[id].subscription.value in g.bindings))
  }

  /** The same row with the same bindings and members; version and running state aside. */
  predicate SameGroup(g0: Group, g: Group)
  {
    && g0.name == g.name && g0.policy == g.policy && g0.params == g.params
    && g0.bindings == g.bindings && g0.members == g.members
  }

  /** What the compiler makes of a node, its tag aside: link, name and subscription are kept, or it is an
      edited node without a subscription. */
  predicate SameRow(r0: NodeRow, r: NodeRow, edited: bool)
  {
    r0.subscription == r.subscription &&
    if edited then r.subscription.None? else r0.link == r.link && r0.name == r.name
  }

  /** The same group draws on the same nodes, and those outside `edited` have kept link and name. */
  ghost predicate SameContent(s0: Store, g0: Group, s: Store, g: Group, edited: set<nat>)
  {
    && SameGroup(g0, g)
    && (forall id :: Draws(s0, g0, id) <==> Draws(s, g, id))
    && (forall id :: Draws(s0, g0, id) ==> SameRow(s0.nodes.rows[id], s.nodes.rows[id], id in edited))
  }

  // ---- Relations over time ----

  ghost predicate SectionsSince(t0: Table<Section>, t: Table<Section>)
  {
    && t0.next <= t.next
    && (forall id :: id in t.rows && id !in t0.rows ==> t0.next <= id)
    && (forall id :: id in t.rows && id in t0.rows ==> SectionSince(t0.rows[id], t.rows[id]))
  }

  ghost predicate SectionSince(r0: Section, r: Section)
  {
    r0.version <= r.version && (r0.version == r.version ==> r0.text == r.text)
  }

  ghost predicate GroupsSince(t0: Table<Group>, t: Table<Group>)
  {
    && t0.next <= t.next
    && (forall id :: id in t.rows && id !in t0.rows ==> t0.next <= id && !t.rows[id].running)
    && (forall id :: id in t.rows && id in t0.rows ==>
          t0.rows[id].version <= t.rows[id].version && t0.rows[id].running == t.rows[id].running)
  }

  /** The record of the last run is kept until the next one, or the proxy was stopped. */
  ghost predicate SysSince(s0: Store, s: Store)
  {
    s.sys.running ==> s.sys == s0.sys
  }

  ghost predicate Since(s0: Store, s: Store)
  {
    && (forall k :: SectionsSince(Sections(s0, k), Sections(s, k)))
    && GroupsSince(s0.groups, s.groups)
    && SysSince(s0, s)
  }

  /** While running, a running group that kept its version kept its row, bindings and members, */
  ghost predicate GroupsKept(s0: Store, s: Store)
  {
    s.sys.running ==> forall id :: Unbumped(s0, s, id) ==> SameGroup(s0.groups.rows[id], s.groups.rows[id])
  }

  /** and its content but for `edited`. */
  ghost predicate ContentSince(s0: Store, s: Store, edited: set<nat>)
  {
    s.sys.running ==> forall id :: Unbumped(s0, s, id) ==>
      SameContent(s0, s0.groups.rows[id], s, s.groups.rows[id], edited)
  }

  predicate Unbumped(s0: Store, s: Store, id: nat)
  {
    && id in s0.groups.rows && id in s.groups.rows
    && s0.groups.rows[id].running && s0.groups.rows[id].version == s.groups.rows[id].version
  }

  lemma SinceTransitive(a: Store, b: Store, c: Store)
    requires StoreInv(a) && Since(a, b) && Since(b, c)
    ensures Since(a, c)
  {
    forall k ensures SectionsSince(Sections(a, k), Sections(c, k)) {
      assert SectionsSince(Sections(a, k), Sections(b, k)) && SectionsSince(Sections(b, k), Sections(c, k));
      assert KeysBelow(Sections(a, k));
      forall id | id in Sections(c, k).rows && id in Sections(a, k).rows
        ensures SectionSince(Sections(a, k).rows[id], Sections(c, k).rows[id])
      {
        assert id in Sections(b, k).rows;
      }
    }
  }

  lemma GroupsKeptTransitive(a: Store, b: Store, c: Store)
    requires StoreInv(a) && Since(a, b) && Since(b, c) && GroupsKept(a, b) && GroupsKept(b, c)
    ensures GroupsKept(a, c)
  {
    if c.sys.running {
      forall id | Unbumped(a, c, id) ensures SameGroup(a.groups.rows[id], c.groups.rows[id]) {
        assert id in b.groups.rows;
      }
    }
  }

  lemma ContentTransitive(a: Store, b: Store, c: Store, d: set<nat>, e: set<nat>)
    requires StoreInv(a) && Since(a, b) && Since(b, c) && ContentSince(a, b, d) && ContentSince(b, c, e)
    ensures ContentSince(a, c, d + e)
  {
    if c.sys.running {
      forall id | Unbumped(a, c, id)
        ensures SameContent(a, a.groups.rows[id], c, c.groups.rows[id], d + e)
      {
        assert id in b.groups.rows;
        SameContentTransitive(a, a.groups.rows[id], b, b.groups.rows[id], c, c.groups.rows[id], d, e);
      }
    }
  }

  lemma SameContentTransitive(a: Store, ga: Group, b: Store, gb: Group, c: Store, gc: Group, d: set<nat>, e: set<nat>)
    requires SameContent(a, ga, b, gb, d) && SameContent(b, gb, c, gc, e)
    ensures SameContent(a, ga, c, gc, d + e)
  {
  }

  // ---- One mutation ----

  lemma SectionsStep(dial: Dialer, s: Store, m: Mutation, k: Kind)
    requires StoreInv(s)
    ensures SectionsSince(Sections(s, k), Sections(Apply(dial, s, m), k))
  {
    if !ConcernsSection(m, k) { OtherSections(dial, s, m, k); } else { SectionStep(dial, s, m, k); }
  }

  lemma SectionStep(dial: Dialer, s: Store, m: Mutation, k: Kind)
    requires ConcernsSection(m, k) && KeysBelow(Sections(s, k))
    ensures SectionsSince(Sections(s, k), Sections(Apply(dial, s, m), k))
  {
  }

  lemma GroupStep(dial: Dialer, s: Store, m: Mutation, g: nat)
    requires g in s.groups.rows && g < s.groups.next && g in Apply(dial, s, m).groups.rows
    ensures var r, r' := s.groups.rows[g], Apply(dial, s, m).groups.rows[g];
            r.version <= r'.version && r.running == r'.running
  {
  }

  lemma NewGroup(dial: Dialer, s: Store, m: Mutation, g: nat)
    requires g !in s.groups.rows && g in Apply(dial, s, m).groups.rows
    ensures g == s.groups.next && !Apply(dial, s, m).groups.rows[g].running
  {
  }

  lemma GroupsStep(dial: Dialer, s: Store, m: Mutation)
    requires StoreInv(s)
    ensures GroupsSince(s.groups, Apply(dial, s, m).groups)
  {
    GroupKeys(dial, s, m);
    forall g | g in Apply(dial, s, m).groups.rows
      ensures g in s.groups.rows ==> s.groups.rows[g].version <= Apply(dial, s, m).groups.rows[g].version
      ensures g in s.groups.rows ==> s.groups.rows[g].running == Apply(dial, s, m).groups.rows[g].running
      ensures g !in s.groups.rows ==> s.groups.next <= g && !Apply(dial, s, m).groups.rows[g].running
    {
      if g in s.groups.rows { GroupStep(dial, s, m, g); } else { NewGroup(dial, s, m, g); }
    }
  }

  /** Every mutation, successful or not, respects the past. */
  lemma SinceStep(dial: Dialer, s: Store, m: Mutation)
    requires StoreInv(s)
    ensures Since(s, Apply(dial, s, m))
  {
    forall k { SectionsStep(dial, s, m, k); }
    GroupsStep(dial, s, m);
  }

  /** Mutations used as documented (graphql/root_schema.go:103, 109): updateNode and removeNodes only on nodes
      without a subscription. */
  ghost predicate Documented(s: Store, m: Mutation)
  {
    match m
    case RemoveNodes(nodes) => forall id :: id in nodes && id in s.nodes.rows ==> s.nodes.rows[id].subscription.None?
    case UpdateNode(_, _, _) => OwnNodeOnly(s, m)
    case _ => true
  }

  function EditedBy(m: Mutation): set<nat>
  {
    if m.UpdateNode? then {m.id} else {}
  }

  /** Node tables that agree on what the group draws on. */
  lemma SameRows(s: Store, s': Store, g: Group)
    requires forall id :: Draws(s, g, id) ==> id in s'.nodes.rows && s'.nodes.rows[id] == s.nodes.rows[id]
    requires forall id :: Draws(s', g, id) ==> id in s.nodes.rows && s'.nodes.rows[id] == s.nodes.rows[id]
    ensures SameContent(s, g, s', g, {})
  {
  }

  /** A bump that misses a running group: none of its members, or no binding of it, is concerned. */
  lemma NotBumpedByNodes(s: Store, nodes: set<nat>, g: nat)
    requires s.sys.running && g in s.groups.rows && s.groups.rows[g].running
    requires BumpedByNodes(s, nodes).groups.rows[g].version == s.groups.rows[g].version
    ensures BumpedByNodes(s, nodes).groups.rows[g] == s.groups.rows[g] && s.groups.rows[g].members !! nodes
  {
  }

  lemma NotBumpedBySubs(s: Store, subs: set<nat>, g: nat)
    requires s.sys.running && g in s.groups.rows && s.groups.rows[g].running
    requires BumpedBySubs(s, subs).groups.rows[g].version == s.groups.rows[g].version
    ensures BumpedBySubs(s, subs).groups.rows[g] == s.groups.rows[g] && s.groups.rows[g].bindings.Keys !! subs
  {
  }

  lemma RemovedSubscriptionsContent(s: Store, subs: set<nat>, g: nat)
    requires StoreInv(s) && s.sys.running && Unbumped(s, RemovedSubscriptions(s, subs), g)
    ensures var s' := RemovedSubscriptions(s, subs); SameContent(s, s.groups.rows[g], s', s'.groups.rows[g], {})
  {
    var nodes := OfSubs(s.nodes, subs);
    var b := BumpedByNodes(s, nodes);
    NotBumpedByNodes(s, nodes, g);
    NotBumpedBySubs(b, subs, g);
    var row, s' := s.groups.rows[g], RemovedSubscriptions(s, subs);
    assert row.bindings - subs == row.bindings;
    assert s'.groups.rows[g] == row;
    SameRows(s, s', row);
  }

  lemma RemovedNodesContent(s: Store, nodes: set<nat>, g: nat)
    requires StoreInv(s) && s.sys.running
    requires forall id :: id in nodes && id in s.nodes.rows ==> s.nodes.rows[id].subscription.None?
    requires g in s.groups.rows && s.groups.rows[g].running
    requires BumpedByNodes(s, nodes).groups.rows[g].version == s.groups.rows[g].version
    ensures var s' := BumpedByNodes(s, nodes).(nodes := Delete(s.nodes, nodes));
            SameContent(s, s.groups.rows[g], s', s'.groups.rows[g], {})
  {
    NotBumpedByNodes(s, nodes, g);
    var row := s.groups.rows[g];
    SameRows(s, BumpedByNodes(s, nodes).(nodes := Delete(s.nodes, nodes)), row);
  }

  /** Rows added under new ids, for a subscription the group is not bound to, are not drawn on. */
  lemma GrownContent(s: Store, sub: Option<nat>, t: Table<NodeRow>, s': Store, g: nat)
    requires StoreInv(s) && g in s.groups.rows && Grows(s.nodes, sub, t) && s'.nodes == t
    requires sub.Some? ==> sub.value !in s.groups.rows[g].bindings
    ensures SameContent(s, s.groups.rows[g], s', s.groups.rows[g], {})
  {
    var row := s.groups.rows[g];
    assert GroupKnown(s, row);
    SameRows(s, s', row);
  }

  lemma UpdatedSubscriptionContent(dial: Dialer, s: Store, sub: nat, links: seq<string>, g: nat)
    requires StoreInv(s) && s.sys.running
    requires Unbumped(s, UpdatedSubscription(dial, s, sub, links), g)
    ensures var s' := UpdatedSubscription(dial, s, sub, links);
            SameContent(s, s.groups.rows[g], s', s'.groups.rows[g], {})
  {
    var pinned := Pinned(s.groups);
    var t := Refreshed(dial, s.nodes, pinned, sub, links);
    if t.Some? {
      var row := s.groups.rows[g];
      NotBumpedBySubs(s.(nodes := t.value), {sub}, g);
      assert sub !in row.bindings.Keys;
      RefreshedIsGood(dial, s.nodes, pinned, sub, links);
      assert GroupKnown(s, row) && forall id :: id in row.members ==> id in pinned;
      SameRows(s, UpdatedSubscription(dial, s, sub, links), row);
    }
  }

  /** A mutation of a group bumps it; every other mutation leaves its row alone or is a bump. */
  lemma OwnMutationBumps(dial: Dialer, s: Store, m: Mutation, g: nat)
    requires StoreInv(s) && Unbumped(s, Apply(dial, s, m), g)
    requires !m.RemoveSubscriptions? && !m.RemoveNodes? && !m.UpdateSubscriptionLink? && !m.UpdateSubscription?
    ensures Apply(dial, s, m).groups.rows[g] == s.groups.rows[g]
  {
  }

  lemma BumpKept(dial: Dialer, s: Store, m: Mutation, g: nat)
    requires s.sys.running && Unbumped(s, Apply(dial, s, m), g)
    requires m.RemoveNodes? || m.UpdateSubscriptionLink? || m.UpdateSubscription?
    ensures SameGroup(s.groups.rows[g], Apply(dial, s, m).groups.rows[g])
  {
  }

  lemma UnbumpedKept(dial: Dialer, s: Store, m: Mutation, g: nat)
    requires StoreInv(s) && s.sys.running && Unbumped(s, Apply(dial, s, m), g)
    ensures SameGroup(s.groups.rows[g], Apply(dial, s, m).groups.rows[g])
  {
    if m.RemoveSubscriptions? {
      RemovedSubscriptionsContent(s, m.subs, g);
    } else if m.RemoveNodes? || m.UpdateSubscriptionLink? || m.UpdateSubscription? {
      BumpKept(dial, s, m, g);
    } else {
      OwnMutationBumps(dial, s, m, g);
    }
  }

  /** No mutation changes a running group behind its version, used as documented or not. */
  lemma GroupsKeptStep(dial: Dialer, s: Store, m: Mutation)
    requires StoreInv(s)
    ensures GroupsKept(s, Apply(dial, s, m))
  {
    var s' := Apply(dial, s, m);
    SinceStep(dial, s, m);
    if s'.sys.running {
      forall g | Unbumped(s, s', g) ensures SameGroup(s.groups.rows[g], s'.groups.rows[g]) {
        UnbumpedKept(dial, s, m, g);
      }
    }
  }

  lemma ImportContent(dial: Dialer, s: Store, m: Mutation, g: nat)
    requires StoreInv(s) && g in s.groups.rows && (m.ImportNodes? || m.ImportSubscription?)
    ensures Apply(dial, s, m).groups == s.groups
    ensures SameContent(s, s.groups.rows[g], Apply(dial, s, m), s.groups.rows[g], {})
  {
    var s' := Apply(dial, s, m);
    match m
    case ImportNodes(_, args) =>
      ImportGrows(dial, s.nodes, None, args, |args|);
      if s' != s { GrownContent(s, None, s'.nodes, s', g); }
    case ImportSubscription(_, _, _, links) =>
      ImportGrows(dial, s.nodes, Some(s.subs.next), ArgsOf(links), |links|);
      assert GroupKnown(s, s.groups.rows[g]);
      if s' != s { GrownContent(s, Some(s.subs.next), s'.nodes, s', g); }
  }

  lemma LinkContent(dial: Dialer, s: Store, id: nat, link: string, g: nat)
    requires s.sys.running && Unbumped(s, Apply(dial, s, UpdateSubscriptionLink(id, link)), g)
    ensures var s' := Apply(dial, s, UpdateSubscriptionLink(id, link));
            SameContent(s, s.groups.rows[g], s', s'.groups.rows[g], {})
  {
    if id in s.subs.rows {
      NotBumpedBySubs(s.(subs := Update(s.subs, id, s.subs.rows[id].(link := link))), {id}, g);
    }
  }

  lemma NodeEditContent(dial: Dialer, s: Store, m: Mutation, g: nat)
    requires g in s.groups.rows && (m.UpdateNode? || m.TagNode?) && OwnNodeOnly(s, m)
    ensures Apply(dial, s, m).groups == s.groups
    ensures SameContent(s, s.groups.rows[g], Apply(dial, s, m), s.groups.rows[g], EditedBy(m))
  {
  }

  lemma OtherContent(dial: Dialer, s: Store, m: Mutation, g: nat)
    requires StoreInv(s) && Unbumped(s, Apply(dial, s, m), g) && !ConcernsNodes(m) && !m.UpdateSubscriptionLink?
    ensures SameContent(s, s.groups.rows[g], Apply(dial, s, m), Apply(dial, s, m).groups.rows[g], {})
  {
    OwnMutationBumps(dial, s, m, g);
    OtherNodes(dial, s, m);
    SameRows(s, Apply(dial, s, m), s.groups.rows[g]);
  }

  lemma NodesContent(dial: Dialer, s: Store, m: Mutation, g: nat)
    requires StoreInv(s) && Documented(s, m) && ConcernsNodes(m)
    requires s.sys.running && Unbumped(s, Apply(dial, s, m), g)
    ensures SameContent(s, s.groups.rows[g], Apply(dial, s, m), Apply(dial, s, m).groups.rows[g], EditedBy(m))
  {
    match m
    case UpdateNode(_, _, _) => NodeEditContent(dial, s, m, g);
    case TagNode(_, _) => NodeEditContent(dial, s, m, g);
    case ImportNodes(_, _) => ImportContent(dial, s, m, g);
    case ImportSubscription(_, _, _, _) => ImportContent(dial, s, m, g);
    case UpdateSubscription(id, links) => UpdatedSubscriptionContent(dial, s, id, links, g);
    case RemoveSubscriptions(subs) => RemovedSubscriptionsContent(s, subs, g);
    case RemoveNodes(nodes) => RemovedNodesContent(s, nodes, g);
  }

  lemma ContentStepAt(dial: Dialer, s: Store, m: Mutation, g: nat)
    requires StoreInv(s) && Documented(s, m) && s.sys.running && Unbumped(s, Apply(dial, s, m), g)
    ensures SameContent(s, s.groups.rows[g], Apply(dial, s, m), Apply(dial, s, m).groups.rows[g], EditedBy(m))
  {
    if ConcernsNodes(m) {
      NodesContent(dial, s, m, g);
    } else if m.UpdateSubscriptionLink? {
      LinkContent(dial, s, m.id, m.link, g);
    } else {
      OtherContent(dial, s, m, g);
    }
  }

  /** A documented mutation leaves a running group its content, unless it bumps it or is an updateNode. */
  lemma ContentStep(dial: Dialer, s: Store, m: Mutation)
    requires StoreInv(s) && Allowed(s, m) && Documented(s, m)
    ensures ContentSince(s, Apply(dial, s, m), EditedBy(m))
  {
    var s' := Apply(dial, s, m);
    SinceStep(dial, s, m);
    if s'.sys.running {
      forall g | Unbumped(s, s', g) ensures SameContent(s, s.groups.rows[g], s', s'.groups.rows[g], EditedBy(m)) {
        ContentStepAt(dial, s, m, g);
      }
    }
  }

  // ---- Histories ----

  ghost predicate MutatesAt(dial: Dialer, ss: seq<Store>, ms: seq<Mutation>, k: nat)
    requires k < |ms| == |ss| - 1
  {
    Allowed(ss[k], ms[k]) && ss[k + 1] == Apply(dial, ss[k], ms[k])
  }

  /** A sequence of mutations from a store on, in any order and number. */
  ghost predicate History(dial: Dialer, ss: seq<Store>, ms: seq<Mutation>)
  {
    |ss| == |ms| + 1 && forall k :: 0 <= k < |ms| ==> MutatesAt(dial, ss, ms, k)
  }

  ghost predicate AllDocumented(ss: seq<Store>, ms: seq<Mutation>)
    requires |ss| == |ms| + 1
  {
    forall k :: 0 <= k < |ms| ==> Documented(ss[k], ms[k])
  }

  /** The nodes that updateNode was applied to before `k`. */
  function EditedIn(ms: seq<Mutation>, k: nat): set<nat>
    requires k <= |ms|
  {
    if k == 0 then {} else EditedIn(ms, k - 1) + EditedBy(ms[k - 1])
  }

  lemma StoreInvStep(dial: Dialer, s: Store, m: Mutation)
    requires StoreInv(s) && Allowed(s, m)
    ensures StoreInv(Apply(dial, s, m))
  {
    SectionsInvStep(dial, s, m);
    GroupsInvStep(dial, s, m);
  }

  lemma {:induction false} HistorySince(dial: Dialer, ss: seq<Store>, ms: seq<Mutation>, k: nat)
    requires History(dial, ss, ms) && k <= |ms| && StoreInv(ss[0])
    ensures StoreInv(ss[k]) && Since(ss[0], ss[k]) && GroupsKept(ss[0], ss[k])
    ensures AllDocumented(ss, ms) ==> ContentSince(ss[0], ss[k], EditedIn(ms, k))
  {
    if k > 0 {
      var s, m := ss[k - 1], ms[k - 1];
      assert MutatesAt(dial, ss, ms, k - 1);
      HistorySince(dial, ss, ms, k - 1);
      StoreInvStep(dial, s, m);
      SinceStep(dial, s, m);
      SinceTransitive(ss[0], s, ss[k]);
      GroupsKeptStep(dial, s, m);
      GroupsKeptTransitive(ss[0], s, ss[k]);
      if AllDocumented(ss, ms) {
        ContentStep(dial, s, m);
        ContentTransitive(ss[0], s, ss[k], EditedIn(ms, k - 1), EditedBy(m));
      }
    }
  }
}

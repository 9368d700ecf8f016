/** What each mutation does, row by row: which tables and rows it changes, how, and what it leaves alone. */
module Effects {
  import opened Wrappers
  import opened Database
  import opened Tables
  import opened NodeImport
  import opened SubscriptionRefresh
  import opened Store

  // ---- Tables ----

  ghost predicate SameBut<R(!new)>(t: Table<R>, t': Table<R>, id: nat)
  {
    && (forall k :: k != id ==> (k in t'.rows <==> k in t.rows))
    && (forall k :: k != id && k in t.rows ==> t'.rows[k] == t.rows[k])
  }

  /** One row more, under the next id. */
  ghost predicate Grown<R(!new)>(t: Table<R>, t': Table<R>, r: R)
  {
    t'.next == t.next + 1 && t.next in t'.rows && t'.rows[t.next] == r && SameBut(t, t', t.next)
  }

  /** The same rows under the same ids, but for the content of one. */
  ghost predicate ChangedAt<R(!new)>(t: Table<R>, t': Table<R>, id: nat)
  {
    t'.next == t.next && id in t.rows && id in t'.rows && SameBut(t, t', id)
  }

  /** Without these rows; ids are not given out again. */
  ghost predicate Without<R(!new)>(t: Table<R>, t': Table<R>, ids: set<nat>)
  {
    && t'.next == t.next && (forall k :: k in t'.rows <==> k in t.rows && k !in ids)
    && (forall k :: k in t'.rows ==> t'.rows[k] == t.rows[k])
  }

  // ---- Sections ----

  ghost predicate OnlySections(s: Store, s': Store, k: Kind)
  {
    match k
    case Global => s' == s.(configs := s'.configs)
    case Dns => s' == s.(dnss := s'.dnss)
    case Routing => s' == s.(routings := s'.routings)
  }

  /** Row `id` alone is selected; texts, versions and ids are as they were. */
  ghost predicate SelectsOnly(t: Table<Section>, t': Table<Section>, id: nat)
  {
    && t'.next == t.next && (forall k :: k in t'.rows <==> k in t.rows)
    && (forall k :: k in t.rows ==> t'.rows[k].text == t.rows[k].text && t'.rows[k].version == t.rows[k].version)
    && (forall k :: k in t.rows ==> (t'.rows[k].selected <==> k == id))
  }

  ghost predicate SetsText(r: Section, r': Section, text: string)
  {
    r'.text == text && r'.version == r.version + 1 && r'.selected == r.selected
  }

  // ---- Groups ----

  /** The group's own rows change with its version; name and running state do not. */
  predicate VersionUp(g: Group, g': Group)
  {
    g'.version == g.version + 1 && g'.name == g.name && g'.running == g.running
  }

  predicate SamePolicy(g: Group, g': Group)
  {
    g'.policy == g.policy && g'.params == g.params
  }

  ghost predicate Binds(g: Group, g': Group, subs: set<nat>, regex: Option<string>)
  {
    && VersionUp(g, g') && SamePolicy(g, g') && g'.members == g.members
    && (forall sub :: sub in g'.bindings <==> sub in g.bindings || sub in subs)
    && (forall sub :: sub in subs ==> g'.bindings[sub] == regex)
    && (forall sub :: sub in g.bindings && sub !in subs ==> g'.bindings[sub] == g.bindings[sub])
  }

  ghost predicate Unbound(g: Group, g': Group, subs: set<nat>)
  {
    && (forall sub :: sub in g'.bindings <==> sub in g.bindings && sub !in subs)
    && (forall sub :: sub in g'.bindings ==> g'.bindings[sub] == g.bindings[sub])
  }

  ghost predicate Unbinds(g: Group, g': Group, subs: set<nat>)
  {
    VersionUp(g, g') && SamePolicy(g, g') && g'.members == g.members && Unbound(g, g', subs)
  }

  ghost predicate SetsMembers(g: Group, g': Group)
  {
    VersionUp(g, g') && SamePolicy(g, g') && g'.bindings == g.bindings
  }

  predicate SetsPolicy(g: Group, g': Group, policy: string, params: seq<Param>)
  {
    && VersionUp(g, g') && g'.policy == policy && g'.params == params
    && g'.bindings == g.bindings && g'.members == g.members
  }

  predicate HitByNodes(s: Store, g: Group, nodes: set<nat>)
  {
    s.sys.running && g.running && exists id :: id in nodes && id in g.members
  }

  predicate HitBySubs(s: Store, g: Group, subs: set<nat>)
  {
    s.sys.running && g.running && exists id :: id in subs && id in g.bindings
  }

  /** A bump of one row, or of none. */
  predicate BumpedIf(g: Group, g': Group, hit: bool)
  {
    g' == g.(version := if hit then g.version + 1 else g.version)
  }

  ghost predicate BumpsByNodes(s: Store, t': Table<Group>, nodes: set<nat>)
  {
    && t'.next == s.groups.next && (forall g :: g in t'.rows <==> g in s.groups.rows)
    && (forall g :: g in t'.rows ==> BumpedIf(s.groups.rows[g], t'.rows[g], HitByNodes(s, s.groups.rows[g], nodes)))
  }

  ghost predicate BumpsBySubs(s: Store, t': Table<Group>, subs: set<nat>)
  {
    && t'.next == s.groups.next && (forall g :: g in t'.rows <==> g in s.groups.rows)
    && (forall g :: g in t'.rows ==> BumpedIf(s.groups.rows[g], t'.rows[g], HitBySubs(s, s.groups.rows[g], subs)))
  }

  /** The group loses its bindings to the subscriptions; it is bumped once for a node of theirs among its
      members, and once for a binding. */
  ghost predicate Dropped(s: Store, g: Group, g': Group, nodes: set<nat>, subs: set<nat>)
  {
    && g'.name == g.name && SamePolicy(g, g') && g'.members == g.members && g'.running == g.running
    && Unbound(g, g', subs)
    && g'.version == g.version + (if HitByNodes(s, g, nodes) then 1 else 0) + (if HitBySubs(s, g, subs) then 1 else 0)
  }

  ghost predicate DropsSubs(s: Store, t': Table<Group>, nodes: set<nat>, subs: set<nat>)
  {
    && t'.next == s.groups.next && (forall g :: g in t'.rows <==> g in s.groups.rows)
    && (forall g :: g in t'.rows ==> Dropped(s, s.groups.rows[g], t'.rows[g], nodes, subs))
  }

  // ---- Nodes ----

  ghost predicate NodesOf(t: Table<NodeRow>, subs: set<nat>, ids: set<nat>)
  {
    forall id :: id in ids <==> id in t.rows && exists sub :: sub in subs && t.rows[id].subscription == Some(sub)
  }

  /** The import of all the arguments, each with its outcome. */
  ghost predicate ImportsNodes(dial: Dialer, t: Table<NodeRow>, sub: Option<nat>, args: seq<Arg>, t': Table<NodeRow>)
  {
    exists rs :: ImportedList(dial, t, sub, args, rs, t') &&
                 forall i :: 0 <= i < |args| ==> rs[i] == Outcome(dial, t, sub, args, i)
  }

  // ---- All mutations ----

  ghost predicate SectionEffect(s: Store, m: Mutation, s': Store)
    requires m.CreateSection? || m.UpdateSection? || m.RemoveSection? || m.SelectSection?
  {
    var (t, t') := (Sections(s, m.kind), Sections(s', m.kind));
    OnlySections(s, s', m.kind) &&
    match m
    case CreateSection(_, text) => Grown(t, t', Section(text, false, 0))
    case UpdateSection(_, id, text) =>
      if id in t.rows then ChangedAt(t, t', id) && SetsText(t.rows[id], t'.rows[id], text) else t' == t
    case RemoveSection(_, id) => Without(t, t', {id})
    case SelectSection(_, id) => if id in t.rows then SelectsOnly(t, t', id) else t' == t
  }

  /** Mutations of a group that is there; one that is not stays so. */
  ghost predicate GroupEffect(s: Store, m: Mutation, s': Store)
    requires m.AddSubscriptions? || m.DelSubscriptions? || m.AddNodes? || m.DelNodes? || m.SetPolicy?
  {
    if m.id !in s.groups.rows then s' == s
    else
      && s' == s.(groups := s'.groups) && ChangedAt(s.groups, s'.groups, m.id)
      && var (g, g') := (s.groups.rows[m.id], s'.groups.rows[m.id]);
      match m
      case AddSubscriptions(_, subs, regex) => Binds(g, g', subs, regex)
      case DelSubscriptions(_, subs) => Unbinds(g, g', subs)
      case AddNodes(_, nodes) => SetsMembers(g, g') && forall n :: n in g'.members <==> n in g.members || n in nodes
      case DelNodes(_, nodes) => SetsMembers(g, g') && forall n :: n in g'.members <==> n in g.members && n !in nodes
      case SetPolicy(_, policy, params) => SetsPolicy(g, g', policy, params)
  }

  ghost predicate NodeEffect(dial: Dialer, s: Store, m: Mutation, s': Store)
    requires m.ImportNodes? || m.RemoveNodes? || m.UpdateNode? || m.TagNode?
  {
    match m
    case ImportNodes(abort, args) =>
      if abort && AnyFatal(dial, s.nodes, None, args) then s' == s
      else s' == s.(nodes := s'.nodes) && ImportsNodes(dial, s.nodes, None, args, s'.nodes)
    case RemoveNodes(nodes) =>
      && s' == s.(nodes := s'.nodes, groups := s'.groups)
      && Without(s.nodes, s'.nodes, nodes) && BumpsByNodes(s, s'.groups, nodes)
    case UpdateNode(id, link, name) =>
      if id !in s.nodes.rows then s' == s
      else
        && s' == s.(nodes := s'.nodes) && ChangedAt(s.nodes, s'.nodes, id)
        && var (r, r') := (s.nodes.rows[id], s'.nodes.rows[id]);
        r'.link == link && r'.name == name && r'.id == r.id && r'.tag == r.tag && r'.subscription == r.subscription
    case TagNode(id, tag) =>
      if id !in s.nodes.rows || !ValidateTag(tag) || HasTag(s.nodes, Some(tag)) then s' == s
      else
        && s' == s.(nodes := s'.nodes) && ChangedAt(s.nodes, s'.nodes, id)
        && var (r, r') := (s.nodes.rows[id], s'.nodes.rows[id]);
        r'.tag == Some(tag) && r'.link == r.link && r'.name == r.name && r'.id == r.id
        && r'.subscription == r.subscription
  }

  ghost predicate TagTakenBySub(t: Table<SubRow>, tag: Option<string>)
  {
    tag.Some? && exists id :: id in t.rows && t.rows[id].tag == tag
  }

  ghost predicate SubscribeEffect(dial: Dialer, s: Store, link: string, tag: Option<string>, abort: bool,
                                  links: seq<string>, s': Store)
  {
    var args := ArgsOf(links);
    if (tag.Some? && !ValidateTag(tag.value)) || TagTakenBySub(s.subs, tag)
       || (abort && AnyFatal(dial, s.nodes, Some(s.subs.next), args))
       || !AnyImported(dial, s.nodes, s.subs.next, args)
    then s' == s
    else
      && s' == s.(nodes := s'.nodes, subs := s'.subs) && Grown(s.subs, s'.subs, SubRow(link, tag))
      && ImportsNodes(dial, s.nodes, Some(s.subs.next), args, s'.nodes)
  }

  /** Some fetched link is valid and not a pinned node's. */
  ghost predicate AnyNewLink(dial: Dialer, s: Store, id: nat, links: seq<string>)
  {
    exists i :: 0 <= i < |links| && ValidLink(dial, links[i]) && !PinnedLink(s.nodes, Pinned(s.groups), id, links[i])
  }

  ghost predicate RefreshEffect(dial: Dialer, s: Store, id: nat, links: seq<string>, s': Store)
  {
    if AnyNewLink(dial, s, id, links) then
      && s' == s.(nodes := s'.nodes, groups := s'.groups) && BumpsBySubs(s, s'.groups, {id})
      && RefreshGood(dial, s.nodes, Pinned(s.groups), id, links, s'.nodes)
    else s' == s
  }

  ghost predicate LinkEffect(s: Store, id: nat, link: string, s': Store)
  {
    if id !in s.subs.rows then s' == s
    else
      && s' == s.(subs := s'.subs, groups := s'.groups) && BumpsBySubs(s, s'.groups, {id})
      && ChangedAt(s.subs, s'.subs, id) && s'.subs.rows[id].link == link && s'.subs.rows[id].tag == s.subs.rows[id].tag
  }

  ghost predicate UnsubscribeEffect(s: Store, subs: set<nat>, s': Store)
  {
    && s' == s.(nodes := s'.nodes, groups := s'.groups, subs := s'.subs) && Without(s.subs, s'.subs, subs)
    && exists nodes :: NodesOf(s.nodes, subs, nodes) && Without(s.nodes, s'.nodes, nodes)
                       && DropsSubs(s, s'.groups, nodes, subs)
  }

  ghost predicate CreateGroupEffect(s: Store, name: string, policy: string, params: seq<Param>, s': Store)
  {
    if ValidateId(name) && forall id :: id in s.groups.rows ==> s.groups.rows[id].name != name
    then s' == s.(groups := s'.groups) && Grown(s.groups, s'.groups, Group(name, policy, params, map[], {}, 0, false))
    else s' == s
  }

  ghost predicate Effect(dial: Dialer, s: Store, m: Mutation, s': Store)
  {
    match m
    case CreateSection(_, _) => SectionEffect(s, m, s')
    case UpdateSection(_, _, _) => SectionEffect(s, m, s')
    case RemoveSection(_, _) => SectionEffect(s, m, s')
    case SelectSection(_, _) => SectionEffect(s, m, s')
    case CreateGroup(name, policy, params) => CreateGroupEffect(s, name, policy, params, s')
    case RemoveGroup(id) => s' == s.(groups := s'.groups) && Without(s.groups, s'.groups, {id})
    case AddSubscriptions(_, _, _) => GroupEffect(s, m, s')
    case DelSubscriptions(_, _) => GroupEffect(s, m, s')
    case AddNodes(_, _) => GroupEffect(s, m, s')
    case DelNodes(_, _) => GroupEffect(s, m, s')
    case SetPolicy(_, _, _) => GroupEffect(s, m, s')
    case ImportNodes(_, _) => NodeEffect(dial, s, m, s')
    case RemoveNodes(_) => NodeEffect(dial, s, m, s')
    case UpdateNode(_, _, _) => NodeEffect(dial, s, m, s')
    case TagNode(_, _) => NodeEffect(dial, s, m, s')
    case ImportSubscription(link, tag, abort, links) => SubscribeEffect(dial, s, link, tag, abort, links, s')
    case UpdateSubscription(id, links) => RefreshEffect(dial, s, id, links, s')
    case UpdateSubscriptionLink(id, link) => LinkEffect(s, id, link, s')
    case RemoveSubscriptions(subs) => UnsubscribeEffect(s, subs, s')
    case Stop => s' == s.(sys := s'.sys) && !s'.sys.running && s'.sys == s.sys.(running := s'.sys.running)
  }

  // ---- They have it ----

  lemma SectionEffects(dial: Dialer, s: Store, m: Mutation)
    requires m.CreateSection? || m.UpdateSection? || m.RemoveSection? || m.SelectSection?
    ensures SectionEffect(s, m, Apply(dial, s, m))
  {
  }

  lemma GroupEffects(dial: Dialer, s: Store, m: Mutation)
    requires m.AddSubscriptions? || m.DelSubscriptions? || m.AddNodes? || m.DelNodes? || m.SetPolicy?
    ensures GroupEffect(s, m, Apply(dial, s, m))
  {
  }

  lemma RowEffects(dial: Dialer, s: Store, m: Mutation)
    requires m.CreateGroup? || m.RemoveGroup? || m.Stop?
    ensures Effect(dial, s, m, Apply(dial, s, m))
  {
  }

  lemma ListImported(dial: Dialer, t: Table<NodeRow>, sub: Option<nat>, args: seq<Arg>)
    requires KeysBelow(t)
    ensures ImportsNodes(dial, t, sub, args, TableAfter(dial, t, sub, args, |args|))
  {
    var rs := seq(|args|, i requires 0 <= i < |args| => Outcome(dial, t, sub, args, i));
    ImportedAll(dial, t, sub, args, rs);
  }

  lemma NodeBumps(s: Store, nodes: set<nat>)
    ensures BumpsByNodes(s, BumpedByNodes(s, nodes).groups, nodes)
    ensures BumpedByNodes(s, nodes) == s.(groups := BumpedByNodes(s, nodes).groups)
  {
  }

  lemma SubBumps(s: Store, subs: set<nat>)
    ensures BumpsBySubs(s, BumpedBySubs(s, subs).groups, subs)
    ensures BumpedBySubs(s, subs) == s.(groups := BumpedBySubs(s, subs).groups)
  {
  }

  lemma NodeEffects(dial: Dialer, s: Store, m: Mutation)
    requires KeysBelow(s.nodes) && (m.ImportNodes? || m.RemoveNodes? || m.UpdateNode? || m.TagNode?)
    ensures NodeEffect(dial, s, m, Apply(dial, s, m))
  {
    match m
    case ImportNodes(_, args) => ListImported(dial, s.nodes, None, args);
    case RemoveNodes(nodes) => NodeBumps(s, nodes);
    case UpdateNode(_, _, _) =>
    case TagNode(_, _) =>
  }

  lemma DropsAt(s: Store, nodes: set<nat>, subs: set<nat>, g: nat)
    requires g in s.groups.rows
    ensures var t := BumpedBySubs(BumpedByNodes(s, nodes), subs).groups;
            g in t.rows && Dropped(s, s.groups.rows[g], WithoutBindings(t, subs).rows[g], nodes, subs)
  {
    var b := BumpedByNodes(s, nodes);
    NodeBumps(s, nodes);
    SubBumps(b, subs);
    assert BumpedIf(s.groups.rows[g], b.groups.rows[g], HitByNodes(s, s.groups.rows[g], nodes));
  }

  lemma DropsBoth(s: Store, nodes: set<nat>, subs: set<nat>)
    ensures DropsSubs(s, WithoutBindings(BumpedBySubs(BumpedByNodes(s, nodes), subs).groups, subs), nodes, subs)
  {
    var t' := WithoutBindings(BumpedBySubs(BumpedByNodes(s, nodes), subs).groups, subs);
    forall g | g in s.groups.rows ensures g in t'.rows && Dropped(s, s.groups.rows[g], t'.rows[g], nodes, subs) {
      DropsAt(s, nodes, subs, g);
    }
  }

  lemma RemovalEffect(s: Store, subs: set<nat>)
    ensures UnsubscribeEffect(s, subs, RemovedSubscriptions(s, subs))
  {
    var nodes := OfSubs(s.nodes, subs);
    DropsBoth(s, nodes, subs);
    NodeBumps(s, nodes);
    SubBumps(BumpedByNodes(s, nodes), subs);
    assert NodesOf(s.nodes, subs, nodes) && Without(s.nodes, RemovedSubscriptions(s, subs).nodes, nodes);
  }

  lemma RefreshedRows(dial: Dialer, s: Store, id: nat, links: seq<string>)
    requires KeysBelow(s.nodes)
    ensures var t := Refreshed(dial, s.nodes, Pinned(s.groups), id, links);
            && (t.Some? <==> AnyNewLink(dial, s, id, links))
            && (t.Some? ==> RefreshGood(dial, s.nodes, Pinned(s.groups), id, links, t.value))
  {
    RefreshCommits(dial, s.nodes, Pinned(s.groups), id, links);
    if Refreshed(dial, s.nodes, Pinned(s.groups), id, links).Some? {
      RefreshedIsGood(dial, s.nodes, Pinned(s.groups), id, links);
    }
  }

  lemma RefreshedEffect(dial: Dialer, s: Store, id: nat, links: seq<string>)
    requires KeysBelow(s.nodes)
    ensures RefreshEffect(dial, s, id, links, UpdatedSubscription(dial, s, id, links))
  {
    RefreshedRows(dial, s, id, links);
    var t := Refreshed(dial, s.nodes, Pinned(s.groups), id, links);
    if t.Some? {
      SubBumps(s.(nodes := t.value), {id});
    }
  }

  lemma SubscribedEffect(dial: Dialer, s: Store, link: string, tag: Option<string>, abort: bool, links: seq<string>)
    requires KeysBelow(s.nodes)
    ensures SubscribeEffect(dial, s, link, tag, abort, links, ImportedSubscription(dial, s, link, tag, abort, links))
  {
    ListImported(dial, s.nodes, Some(s.subs.next), ArgsOf(links));
  }

  lemma RelinkedEffect(dial: Dialer, s: Store, id: nat, link: string)
    ensures LinkEffect(s, id, link, Apply(dial, s, UpdateSubscriptionLink(id, link)))
  {
    if id in s.subs.rows { SubBumps(s.(subs := Update(s.subs, id, s.subs.rows[id].(link := link))), {id}); }
  }

  /** Every mutation has its effect. */
  lemma MutationEffect(dial: Dialer, s: Store, m: Mutation)
    requires KeysBelow(s.nodes)
    ensures Effect(dial, s, m, Apply(dial, s, m))
  {
    match m
    case ImportSubscription(link, tag, abort, links) => SubscribedEffect(dial, s, link, tag, abort, links);
    case UpdateSubscription(id, links) => RefreshedEffect(dial, s, id, links);
    case UpdateSubscriptionLink(id, link) => RelinkedEffect(dial, s, id, link);
    case RemoveSubscriptions(subs) => RemovalEffect(s, subs);
    case CreateGroup(_, _, _) => RowEffects(dial, s, m);
    case RemoveGroup(_) => RowEffects(dial, s, m);
    case Stop => RowEffects(dial, s, m);
    case ImportNodes(_, _) => NodeEffects(dial, s, m);
    case RemoveNodes(_) => NodeEffects(dial, s, m);
    case UpdateNode(_, _, _) => NodeEffects(dial, s, m);
    case TagNode(_, _) => NodeEffects(dial, s, m);
    case _ => OwnEffects(dial, s, m);
  }

  lemma OwnEffects(dial: Dialer, s: Store, m: Mutation)
    requires m.CreateSection? || m.UpdateSection? || m.RemoveSection? || m.SelectSection? || m.AddSubscriptions?
             || m.DelSubscriptions? || m.AddNodes? || m.DelNodes? || m.SetPolicy?
    ensures Effect(dial, s, m, Apply(dial, s, m))
  {
    match m
    case CreateSection(_, _) => SectionEffects(dial, s, m);
    case UpdateSection(_, _, _) => SectionEffects(dial, s, m);
    case RemoveSection(_, _) => SectionEffects(dial, s, m);
    case SelectSection(_, _) => SectionEffects(dial, s, m);
    case _ => GroupEffects(dial, s, m);
  }
}

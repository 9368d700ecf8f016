/** The database as the services change it: selected and versioned sections, groups, nodes,
    subscriptions, and the running state (the db package and the mutation_utils.go files of the services).
    A transaction that fails leaves the store as it was. */
module Store {
  import opened Wrappers
  import opened Database
  import opened Tables
  import opened NodeImport
  import opened SubscriptionRefresh

  datatype Kind = Global | Dns | Routing

  /** A row of the configs, dns or routings table. */
  datatype Section = Section(text: string, selected: bool, version: nat)

  /** A group with its rows of group_subscriptions and group_nodes; `running` is `system_id = sys.ID`. */
  datatype Group = Group(name: string, policy: string, params: seq<Param>, bindings: map<nat, Option<string>>,
                         members: set<nat>, version: nat, running: bool)

  /** A row of the subscriptions table. */
  datatype SubRow = SubRow(link: string, tag: Option<string>)

  datatype Ref = Ref(id: nat, version: nat)

  /** The row of the systems table. */
  datatype Sys = Sys(running: bool, config: Option<Ref>, dns: Option<Ref>, routing: Option<Ref>,
                     versionSum: nat, groupIds: string)

  datatype Store = Store(configs: Table<Section>, dnss: Table<Section>, routings: Table<Section>,
                         groups: Table<Group>, nodes: Table<NodeRow>, subs: Table<SubRow>, sys: Sys)

  function Sections(s: Store, k: Kind): Table<Section>
  {
    match k case Global => s.configs case Dns => s.dnss case Routing => s.routings
  }

  function WithSections(s: Store, k: Kind, t: Table<Section>): (s': Store)
    ensures forall j :: Sections(s', j) == if j == k then t else Sections(s, j)
  {
    match k case Global => s.(configs := t) case Dns => s.(dnss := t) case Routing => s.(routings := t)
  }

  function Running(s: Store, k: Kind): Option<Ref>
  {
    match k case Global => s.sys.config case Dns => s.sys.dns case Routing => s.sys.routing
  }

  // ---- Mutations ----

  datatype Mutation =
    | CreateSection(kind: Kind, text: string)
    | UpdateSection(kind: Kind, id: nat, text: string)
    | RemoveSection(kind: Kind, id: nat)
    | SelectSection(kind: Kind, id: nat)
    | CreateGroup(name: string, policy: string, params: seq<Param>)
    | RemoveGroup(id: nat)
    | AddSubscriptions(id: nat, subs: set<nat>, regex: Option<string>)
    | DelSubscriptions(id: nat, subs: set<nat>)
    | AddNodes(id: nat, nodes: set<nat>)
    | DelNodes(id: nat, nodes: set<nat>)
    | SetPolicy(id: nat, policy: string, params: seq<Param>)
    | ImportNodes(abort: bool, args: seq<Arg>)
    | RemoveNodes(nodes: set<nat>)
    | UpdateNode(id: nat, link: string, name: string)
    | TagNode(id: nat, newTag: string)
    | ImportSubscription(link: string, tag: Option<string>, abort: bool, links: seq<string>)
    | UpdateSubscription(id: nat, links: seq<string>)
    | UpdateSubscriptionLink(id: nat, link: string)
    | RemoveSubscriptions(subs: set<nat>)
    | Stop

  /** Unset all selected, set one; without such a row the transaction is rolled back. */
  function Selected(t: Table<Section>, id: nat): Table<Section>
  {
    if id in t.rows then Table(map k | k in t.rows :: t.rows[k].(selected := k == id), t.next) else t
  }

  function Bumped(t: Table<Group>, ids: set<nat>): Table<Group>
  {
    Table(map g | g in t.rows :: if g in ids then t.rows[g].(version := t.rows[g].version + 1) else t.rows[g], t.next)
  }

  /** `AutoUpdateVersionByIds` for subscriptions: while running, bump the running groups bound to them. */
  function BumpedBySubs(s: Store, subs: set<nat>): Store
  {
    if !s.sys.running then s
    else s.(groups := Bumped(s.groups, set g | g in s.groups.rows && s.groups.rows[g].running &&
                                               !(s.groups.rows[g].bindings.Keys !! subs)))
  }

  /** The same for nodes: bump the running groups that have one of them as a member. */
  function BumpedByNodes(s: Store, nodes: set<nat>): Store
  {
    if !s.sys.running then s
    else s.(groups := Bumped(s.groups, set g | g in s.groups.rows && s.groups.rows[g].running &&
                                               !(s.groups.rows[g].members !! nodes)))
  }

  /** Nodes that some group holds directly, whatever their subscription. */
  function Pinned(t: Table<Group>): (pinned: set<nat>)
    ensures forall id :: id in pinned <==> exists g :: g in t.rows && id in t.rows[g].members
  {
    set g, id | g in t.rows && id in t.rows[g].members :: id
  }

  /** A group mutation with its version bump; nothing happens to a group that does not exist. */
  function Changed(s: Store, id: nat, g: Group): Store
  {
    if id in s.groups.rows then s.(groups := Update(s.groups, id, g.(version := g.version + 1))) else s
  }

  function GroupAt(s: Store, id: nat): Group
  {
    if id in s.groups.rows then s.groups.rows[id] else Group("", "", [], map[], {}, 0, false)
  }

  function WithoutBindings(t: Table<Group>, subs: set<nat>): Table<Group>
  {
    Table(map g | g in t.rows :: t.rows[g].(bindings := t.rows[g].bindings - subs), t.next)
  }

  /** The unique index on group names. */
  ghost predicate NameUsed(t: Table<Group>, name: string)
  {
    exists id :: id in t.rows && t.rows[id].name == name
  }

  ghost predicate AnyFatal(dial: Dialer, t: Table<NodeRow>, sub: Option<nat>, args: seq<Arg>)
  {
    exists i :: 0 <= i < |args| && Fatal(Outcome(dial, t, sub, args, i))
  }

  /** ValidateTag, and the unique index on tags of subscriptions. */
  ghost predicate SubTagOk(t: Table<SubRow>, tag: Option<string>)
  {
    tag.Some? ==> ValidateTag(tag.value) && forall id :: id in t.rows ==> t.rows[id].tag != tag
  }

  ghost function ImportedSubscription(dial: Dialer, s: Store, link: string, tag: Option<string>, abort: bool,
                                      links: seq<string>): Store
  {
    var sub, args := s.subs.next, ArgsOf(links);
    if !SubTagOk(s.subs, tag) || (abort && AnyFatal(dial, s.nodes, Some(sub), args)) ||
       !AnyImported(dial, s.nodes, sub, args)
    then s
    else s.(subs := Insert(s.subs, SubRow(link, tag)), nodes := TableAfter(dial, s.nodes, Some(sub), args, |args|))
  }

  /** The transaction of `UpdateById`. The subscription was looked up before it began, and is not again. */
  ghost function UpdatedSubscription(dial: Dialer, s: Store, id: nat, links: seq<string>): Store
  {
    var t := Refreshed(dial, s.nodes, Pinned(s.groups), id, links);
    if t.Some? then BumpedBySubs(s.(nodes := t.value), {id}) else s
  }

  function RemovedSubscriptions(s: Store, subs: set<nat>): Store
  {
    var nodes := OfSubs(s.nodes, subs);
    var b := BumpedBySubs(BumpedByNodes(s, nodes), subs);
    b.(nodes := Delete(s.nodes, nodes), groups := WithoutBindings(b.groups, subs), subs := Delete(s.subs, subs))
  }

  /** The store after a mutation; one that fails is rolled back. */
  ghost function Apply(dial: Dialer, s: Store, m: Mutation): Store
  {
    match m
    case CreateSection(k, text) => WithSections(s, k, Insert(Sections(s, k), Section(text, false, 0)))
    case UpdateSection(k, id, text) =>
      var t := Sections(s, k);
      if id in t.rows
      then WithSections(s, k, Update(t, id, t.rows[id].(text := text, version := t.rows[id].version + 1))) else s
    case RemoveSection(k, id) => WithSections(s, k, Delete(Sections(s, k), {id}))
    case SelectSection(k, id) => WithSections(s, k, Selected(Sections(s, k), id))
    case CreateGroup(name, policy, params) =>
      if ValidateId(name) && !NameUsed(s.groups, name)
      then s.(groups := Insert(s.groups, Group(name, policy, params, map[], {}, 0, false))) else s
    case RemoveGroup(id) => s.(groups := Delete(s.groups, {id}))
    case AddSubscriptions(id, subs, regex) =>
      var g := GroupAt(s, id);
      Changed(s, id, g.(bindings := g.bindings + map sub | sub in subs :: regex))
    case DelSubscriptions(id, subs) =>
      var g := GroupAt(s, id);
      Changed(s, id, g.(bindings := g.bindings - subs))
    case AddNodes(id, nodes) =>
      var g := GroupAt(s, id);
      Changed(s, id, g.(members := g.members + nodes))
    case DelNodes(id, nodes) =>
      var g := GroupAt(s, id);
      Changed(s, id, g.(members := g.members - nodes))
    case SetPolicy(id, policy, params) => Changed(s, id, GroupAt(s, id).(policy := policy, params := params))
    case ImportNodes(abort, args) =>
      if abort && AnyFatal(dial, s.nodes, None, args) then s
      else s.(nodes := TableAfter(dial, s.nodes, None, args, |args|))
    case RemoveNodes(nodes) => BumpedByNodes(s, nodes).(nodes := Delete(s.nodes, nodes))
    case UpdateNode(id, link, name) =>
      if id in s.nodes.rows then s.(nodes := Update(s.nodes, id, s.nodes.rows[id].(link := link, name := name))) else s
    case TagNode(id, tag) =>
      if id in s.nodes.rows && ValidateTag(tag) && !TagUsed(s.nodes, Some(tag))
      then s.(nodes := Update(s.nodes, id, s.nodes.rows[id].(tag := Some(tag)))) else s
    case ImportSubscription(link, tag, abort, links) => ImportedSubscription(dial, s, link, tag, abort, links)
    case UpdateSubscription(id, links) => UpdatedSubscription(dial, s, id, links)
    case UpdateSubscriptionLink(id, link) =>
      if id in s.subs.rows
      then BumpedBySubs(s.(subs := Update(s.subs, id, s.subs.rows[id].(link := link))), {id}) else s
    case RemoveSubscriptions(subs) => RemovedSubscriptions(s, subs)
    case Stop => s.(sys := s.sys.(running := false))
  }

  /** Groups are given only nodes and subscriptions that exist; a subscription that is refreshed existed
      when it was looked up. */
  ghost predicate Allowed(s: Store, m: Mutation)
  {
    match m
    case AddSubscriptions(_, subs, _) => subs <= s.subs.rows.Keys
    case AddNodes(_, nodes) => nodes <= s.nodes.rows.Keys
    case UpdateSubscription(id, _) => id < s.subs.next
    case _ => true
  }

  // ---- Invariants ----

  /** At most one section of a kind is selected. */
  ghost predicate Exclusive(t: Table<Section>)
  {
    forall i, j :: i in t.rows && j in t.rows && t.rows[i].selected && t.rows[j].selected ==> i == j
  }

  ghost predicate GroupKnown(s: Store, g: Group)
  {
    (forall id :: id in g.members ==> id < s.nodes.next) && (forall sub :: sub in g.bindings ==> sub < s.subs.next)
  }

  ghost predicate SectionsInv(s: Store)
  {
    forall k :: KeysBelow(Sections(s, k)) && Exclusive(Sections(s, k))
  }

  /** Groups know only ids that were given out, and no id at or above a counter is in use. */
  ghost predicate GroupsInv(s: Store)
  {
    && KeysBelow(s.groups) && KeysBelow(s.nodes) && KeysBelow(s.subs)
    && (forall g :: g in s.groups.rows ==> GroupKnown(s, s.groups.rows[g]))
  }

  ghost predicate StoreInv(s: Store)
  {
    SectionsInv(s) && GroupsInv(s)
  }

  predicate ConcernsSection(m: Mutation, k: Kind)
  {
    (m.CreateSection? || m.UpdateSection? || m.RemoveSection? || m.SelectSection?) && m.kind == k
  }

  lemma OtherSections(dial: Dialer, s: Store, m: Mutation, k: Kind)
    requires !ConcernsSection(m, k)
    ensures Sections(Apply(dial, s, m), k) == Sections(s, k)
  {
  }

  lemma SectionsInvStep(dial: Dialer, s: Store, m: Mutation)
    requires SectionsInv(s)
    ensures SectionsInv(Apply(dial, s, m))
  {
    var s' := Apply(dial, s, m);
    forall k ensures KeysBelow(Sections(s', k)) && Exclusive(Sections(s', k)) {
      assert KeysBelow(Sections(s, k)) && Exclusive(Sections(s, k));
      if ConcernsSection(m, k) { SectionInvStep(dial, s, m, k); } else { OtherSections(dial, s, m, k); }
    }
  }

  lemma SectionInvStep(dial: Dialer, s: Store, m: Mutation, k: Kind)
    requires ConcernsSection(m, k) && KeysBelow(Sections(s, k)) && Exclusive(Sections(s, k))
    ensures KeysBelow(Sections(Apply(dial, s, m), k)) && Exclusive(Sections(Apply(dial, s, m), k))
  {
  }

  /** Importing only adds rows, under new ids and with the given subscription. */
  ghost predicate Grows(t: Table<NodeRow>, sub: Option<nat>, t': Table<NodeRow>)
  {
    && t.next <= t'.next && KeysBelow(t')
    && (forall id :: id in t.rows ==> id in t'.rows && t'.rows[id] == t.rows[id])
    && (forall id :: id in t'.rows && id !in t.rows ==> t.next <= id && t'.rows[id].subscription == sub)
  }

  lemma {:induction false} ImportGrows(dial: Dialer, t: Table<NodeRow>, sub: Option<nat>, args: seq<Arg>, n: nat)
    requires n <= |args| && KeysBelow(t)
    ensures Grows(t, sub, TableAfter(dial, t, sub, args, n))
  {
    if n > 0 { ImportGrows(dial, t, sub, args, n - 1); }
  }

  lemma SubsNext(dial: Dialer, s: Store, m: Mutation)
    requires KeysBelow(s.subs)
    ensures s.subs.next <= Apply(dial, s, m).subs.next && KeysBelow(Apply(dial, s, m).subs)
  {
  }

  lemma NodesNext(dial: Dialer, s: Store, m: Mutation)
    requires KeysBelow(s.nodes)
    ensures s.nodes.next <= Apply(dial, s, m).nodes.next && KeysBelow(Apply(dial, s, m).nodes)
  {
    match m
    case ImportNodes(_, args) => ImportGrows(dial, s.nodes, None, args, |args|);
    case ImportSubscription(_, _, _, links) => ImportGrows(dial, s.nodes, Some(s.subs.next), ArgsOf(links), |links|);
    case UpdateSubscription(id, links) => RefreshNext(dial, s, id, links);
    case _ =>
  }

  lemma RefreshNext(dial: Dialer, s: Store, id: nat, links: seq<string>)
    requires KeysBelow(s.nodes)
    ensures var t := Refreshed(dial, s.nodes, Pinned(s.groups), id, links);
            t.Some? ==> s.nodes.next <= t.value.next && KeysBelow(t.value)
  {
    ImportGrows(dial, Kept(s.nodes, Pinned(s.groups), id), Some(id), ArgsOf(links), |links|);
  }

  /** Where a group of the new store comes from: it is new and empty, or it was there before, and any
      member or binding it gained is of an existing node or subscription. */
  lemma GroupOrigin(dial: Dialer, s: Store, m: Mutation, g: nat)
    requires Allowed(s, m) && g in Apply(dial, s, m).groups.rows && g !in s.groups.rows
    ensures g == s.groups.next && m.CreateGroup?
    ensures Apply(dial, s, m).groups.rows[g] == Group(m.name, m.policy, m.params, map[], {}, 0, false)
  {
  }

  predicate EditsGroup(m: Mutation)
  {
    m.AddSubscriptions? || m.DelSubscriptions? || m.AddNodes? || m.DelNodes? || m.SetPolicy?
  }

  lemma EditGains(dial: Dialer, s: Store, m: Mutation, g: nat)
    requires EditsGroup(m) && Allowed(s, m) && g in s.groups.rows
    ensures g in Apply(dial, s, m).groups.rows
    ensures var r, r' := s.groups.rows[g], Apply(dial, s, m).groups.rows[g];
            r'.members <= r.members + s.nodes.rows.Keys && r'.bindings.Keys <= r.bindings.Keys + s.subs.rows.Keys
  {
  }

  predicate BumpsGroups(m: Mutation)
  {
    m.RemoveNodes? || m.UpdateSubscription? || m.UpdateSubscriptionLink? || m.RemoveSubscriptions?
  }

  lemma BumpKeeps(dial: Dialer, s: Store, m: Mutation, g: nat)
    requires BumpsGroups(m) && g in s.groups.rows
    ensures g in Apply(dial, s, m).groups.rows
    ensures var r, r' := s.groups.rows[g], Apply(dial, s, m).groups.rows[g];
            r'.members == r.members && r'.bindings.Keys <= r.bindings.Keys
  {
  }

  lemma OthersKeep(dial: Dialer, s: Store, m: Mutation, g: nat)
    requires !EditsGroup(m) && !BumpsGroups(m)
    requires g in Apply(dial, s, m).groups.rows && g in s.groups.rows && g < s.groups.next
    ensures Apply(dial, s, m).groups.rows[g] == s.groups.rows[g]
  {
  }

  lemma GroupGains(dial: Dialer, s: Store, m: Mutation, g: nat)
    requires Allowed(s, m) && g in Apply(dial, s, m).groups.rows && g in s.groups.rows && g < s.groups.next
    ensures var r, r' := s.groups.rows[g], Apply(dial, s, m).groups.rows[g];
            r'.members <= r.members + s.nodes.rows.Keys && r'.bindings.Keys <= r.bindings.Keys + s.subs.rows.Keys
  {
    if EditsGroup(m) {
      EditGains(dial, s, m, g);
    } else if BumpsGroups(m) {
      BumpKeeps(dial, s, m, g);
    } else {
      OthersKeep(dial, s, m, g);
    }
  }

  lemma GroupsInvStep(dial: Dialer, s: Store, m: Mutation)
    requires GroupsInv(s) && Allowed(s, m)
    ensures GroupsInv(Apply(dial, s, m))
  {
    NodesNext(dial, s, m);
    SubsNext(dial, s, m);
    var s' := Apply(dial, s, m);
    GroupKeys(dial, s, m);
    forall g | g in s'.groups.rows ensures GroupKnown(s', s'.groups.rows[g]) {
      if g in s.groups.rows {
        GroupGains(dial, s, m, g);
        assert GroupKnown(s, s.groups.rows[g]);
      } else {
        GroupOrigin(dial, s, m, g);
      }
    }
  }

  lemma GroupKeys(dial: Dialer, s: Store, m: Mutation)
    requires KeysBelow(s.groups)
    ensures KeysBelow(Apply(dial, s, m).groups) && s.groups.next <= Apply(dial, s, m).groups.next
  {
  }

  // ---- What the schema and the validators guarantee ----

  ghost predicate TagsInv(t: Table<NodeRow>)
  {
    && (forall i :: i in t.rows && t.rows[i].tag.Some? ==> ValidateTag(t.rows[i].tag.value))
    && (forall i, j :: i in t.rows && j in t.rows && t.rows[i].tag.Some? && t.rows[i].tag == t.rows[j].tag ==> i == j)
  }

  ghost predicate NamesInv(t: Table<Group>)
  {
    && (forall i :: i in t.rows ==> ValidateId(t.rows[i].name))
    && (forall i, j :: i in t.rows && j in t.rows && t.rows[i].name == t.rows[j].name ==> i == j)
  }

  /** Tags are valid and unique, and so are group names. */
  ghost predicate SchemaInv(s: Store)
  {
    TagsInv(s.nodes) && NamesInv(s.groups)
  }

  lemma ImportTags(dial: Dialer, t: Table<NodeRow>, sub: Option<nat>, arg: Arg)
    requires TagsInv(t)
    ensures TagsInv(Imported(dial, t, sub, arg).0)
  {
  }

  lemma {:induction false} ImportsTags(dial: Dialer, t: Table<NodeRow>, sub: Option<nat>, args: seq<Arg>, n: nat)
    requires n <= |args| && TagsInv(t)
    ensures TagsInv(TableAfter(dial, t, sub, args, n))
  {
    if n > 0 {
      ImportsTags(dial, t, sub, args, n - 1);
      ImportTags(dial, TableAfter(dial, t, sub, args, n - 1), sub, args[n - 1]);
    }
  }

  predicate ConcernsNodes(m: Mutation)
  {
    || m.ImportNodes? || m.RemoveNodes? || m.UpdateNode? || m.TagNode?
    || m.ImportSubscription? || m.UpdateSubscription? || m.RemoveSubscriptions?
  }

  lemma OtherNodes(dial: Dialer, s: Store, m: Mutation)
    requires !ConcernsNodes(m)
    ensures Apply(dial, s, m).nodes == s.nodes
  {
  }

  lemma RefreshTags(dial: Dialer, s: Store, id: nat, links: seq<string>)
    requires TagsInv(s.nodes)
    ensures TagsInv(UpdatedSubscription(dial, s, id, links).nodes)
  {
    ImportsTags(dial, Kept(s.nodes, Pinned(s.groups), id), Some(id), ArgsOf(links), |links|);
  }

  lemma RemovalTags(dial: Dialer, s: Store, m: Mutation)
    requires TagsInv(s.nodes) && (m.RemoveNodes? || m.RemoveSubscriptions?)
    ensures TagsInv(Apply(dial, s, m).nodes)
  {
  }

  lemma EditTags(dial: Dialer, s: Store, m: Mutation)
    requires TagsInv(s.nodes) && (m.UpdateNode? || m.TagNode?)
    ensures TagsInv(Apply(dial, s, m).nodes)
  {
  }

  lemma TagsStep(dial: Dialer, s: Store, m: Mutation)
    requires TagsInv(s.nodes)
    ensures TagsInv(Apply(dial, s, m).nodes)
  {
    match m
    case ImportNodes(_, args) => ImportsTags(dial, s.nodes, None, args, |args|);
    case ImportSubscription(_, _, _, links) => ImportsTags(dial, s.nodes, Some(s.subs.next), ArgsOf(links), |links|);
    case UpdateSubscription(id, links) => RefreshTags(dial, s, id, links);
    case UpdateNode(_, _, _) => EditTags(dial, s, m);
    case TagNode(_, _) => EditTags(dial, s, m);
    case _ => if ConcernsNodes(m) { RemovalTags(dial, s, m); } else { OtherNodes(dial, s, m); }
  }

  /** Names change only by creating a group, under a valid and free name. */
  lemma GroupName(dial: Dialer, s: Store, m: Mutation, g: nat)
    requires KeysBelow(s.groups) && g in Apply(dial, s, m).groups.rows
    ensures if g in s.groups.rows then Apply(dial, s, m).groups.rows[g].name == s.groups.rows[g].name
            else m.CreateGroup? && Apply(dial, s, m).groups.rows[g].name == m.name
                 && ValidateId(m.name) && !NameUsed(s.groups, m.name) && g == s.groups.next
  {
  }

  lemma NamesStep(dial: Dialer, s: Store, m: Mutation)
    requires KeysBelow(s.groups) && NamesInv(s.groups)
    ensures NamesInv(Apply(dial, s, m).groups)
  {
    var t := Apply(dial, s, m).groups;
    forall i | i in t.rows ensures ValidateId(t.rows[i].name) {
      GroupName(dial, s, m, i);
    }
    forall i, j | i in t.rows && j in t.rows && t.rows[i].name == t.rows[j].name ensures i == j {
      GroupName(dial, s, m, i);
      GroupName(dial, s, m, j);
    }
  }

  /** Every mutation, successful or not, keeps tags and group names valid and unique. */
  lemma SchemaInvStep(dial: Dialer, s: Store, m: Mutation)
    requires KeysBelow(s.groups) && SchemaInv(s)
    ensures SchemaInv(Apply(dial, s, m))
  {
    TagsStep(dial, s, m);
    NamesStep(dial, s, m);
  }

  /** updateNode as documented (graphql/root_schema.go:103): only on a node without a subscription. */
  predicate OwnNodeOnly(s: Store, m: Mutation)
  {
    m.UpdateNode? && m.id in s.nodes.rows ==> s.nodes.rows[m.id].subscription.None?
  }

  lemma RefreshLinks(dial: Dialer, s: Store, id: nat, links: seq<string>)
    requires KeysBelow(s.nodes) && LinksUnique(s.nodes)
    ensures LinksUnique(UpdatedSubscription(dial, s, id, links).nodes)
  {
    if Refreshed(dial, s.nodes, Pinned(s.groups), id, links).Some? {
      RefreshKeepsUnique(dial, s.nodes, Pinned(s.groups), id, links);
    }
  }

  lemma LinksDeleted(t: Table<NodeRow>, ids: set<nat>)
    requires LinksUnique(t)
    ensures LinksUnique(Delete(t, ids))
  {
  }

  lemma EditLinks(dial: Dialer, s: Store, m: Mutation)
    requires LinksUnique(s.nodes) && OwnNodeOnly(s, m) && (m.UpdateNode? || m.TagNode?)
    ensures LinksUnique(Apply(dial, s, m).nodes)
  {
    var t, t' := s.nodes, Apply(dial, s, m).nodes;
    forall i, j | i in t'.rows && j in t'.rows && SameEntry(t'.rows[i], t'.rows[j]) ensures i == j {
      assert SameEntry(t.rows[i], t.rows[j]);
    }
  }

  lemma ImportLinks(dial: Dialer, s: Store, m: Mutation)
    requires KeysBelow(s.nodes) && LinksUnique(s.nodes) && (m.ImportNodes? || m.ImportSubscription?)
    ensures LinksUnique(Apply(dial, s, m).nodes)
  {
    match m
    case ImportNodes(_, args) => ImportsKeepUnique(dial, s.nodes, None, args, |args|);
    case ImportSubscription(_, _, _, links) =>
      ImportsKeepUnique(dial, s.nodes, Some(s.subs.next), ArgsOf(links), |links|);
  }

  /** No mutation gives a subscription two nodes with one link. */
  lemma LinksStep(dial: Dialer, s: Store, m: Mutation)
    requires KeysBelow(s.nodes) && LinksUnique(s.nodes) && OwnNodeOnly(s, m)
    ensures LinksUnique(Apply(dial, s, m).nodes)
  {
    if !ConcernsNodes(m) {
      OtherNodes(dial, s, m);
    } else {
      match m
      case RemoveNodes(nodes) => LinksDeleted(s.nodes, nodes);
      case RemoveSubscriptions(subs) => LinksDeleted(s.nodes, OfSubs(s.nodes, subs));
      case UpdateSubscription(id, links) => RefreshLinks(dial, s, id, links);
      case UpdateNode(_, _, _) => EditLinks(dial, s, m);
      case TagNode(_, _) => EditLinks(dial, s, m);
      case _ => ImportLinks(dial, s, m);
    }
  }
}

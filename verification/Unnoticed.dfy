/** Two traces from the empty database at whose end `Modified` says no, although a run would load another
    config: after a group has taken the name of a preset, and after a node has got another link. */
module Unnoticed {
  import opened Wrappers
  import opened Text
  import opened Database
  import opened Tables
  import opened NodeImport
  import opened GroupMembers
  import opened NodeNames
  import opened Store
  import opened StoreHistory
  import opened ChangeDetector
  import opened ModifiedSoundness
  import opened Preloading
  import opened Recompile
  import opened ConfigRun
  import opened RunAgain
  import C = ConfigCompiler

  // ---- The setting: one node, one group, a routing that uses the group and the preset "direct" ----

  const ROUTING := C.Routing("g", ["direct"])

  function Parse(config: string, dns: string, routing: string): Option<C.Routing>
  {
    Some(ROUTING)
  }

  function Dial(link: string, tag: string): Option<string>
  {
    Some("n")
  }

  const NODE := NodeRow(1, "a://b", "n", None, None)
  const OFF: Table<Section> := Table(map[1 := Section("", false, 0)], 2)
  const ON: Table<Section> := Table(map[1 := Section("", true, 0)], 2)
  const NONE: Table<Section> := Table(map[], 1)

  function Member(name: string, members: set<nat>, running: bool): Group
  {
    Group(name, "random", [], map[], members, if members == {} then 0 else 1, running)
  }

  function With(configs: Table<Section>, dnss: Table<Section>, routings: Table<Section>,
                groups: Table<Group>, nodes: Table<NodeRow>, sys: Sys): Store
  {
    Store(configs, dnss, routings, groups, nodes, Table(map[], 1), sys)
  }

  const IDLE := Sys(false, None, None, None, 0, "")
  const NO_NODES: Table<NodeRow> := Table(map[], 1)
  const NODES: Table<NodeRow> := Table(map[1 := NODE], 2)
  const NO_GROUPS: Table<Group> := Table(map[], 1)

  function Groups(members: set<nat>, running: bool): Table<Group>
  {
    Table(map[1 := Member("g", members, running)], 2)
  }

  /** The groups after a second one has been created under a preset's name. */
  function MoreGroups(members: set<nat>): Table<Group>
  {
    Table(map[1 := Member("g", {1}, true), 2 := Member("direct", members, false)], 3)
  }

  const READY: Store := With(ON, ON, ON, Groups({1}, false), NODES, IDLE)
  const REC := Recording(1, 1, 1, [1])
  const BUSY := Sys(true, Some(Ref(1, 0)), Some(Ref(1, 0)), Some(Ref(1, 0)),
                    VersionSum(READY.groups, [1]), IdString([1]))
  const LOADED: Store := With(ON, ON, ON, Groups({1}, true), NODES, BUSY)
  const CREATED: Store := With(ON, ON, ON, MoreGroups({}), NODES, BUSY)
  const TAKEN: Store := With(ON, ON, ON, MoreGroups({1}), NODES, BUSY)

  // ---- The traces ----

  /** The trace so far; `load` is the index of its only run, if there was one. */
  ghost predicate Told(ss: seq<Store>, es: seq<Event>, load: Option<nat>)
  {
    && Trace(Dial, ss, es) && TraceDocumented(ss, es)
    && forall k: nat :: k < |es| ==> (es[k].Load? <==> load == Some(k))
  }

  lemma TraceExtends(ss: seq<Store>, es: seq<Event>, e: Event, s': Store)
    requires Trace(Dial, ss, es) && TraceStep(Dial, ss[|es|], e, s')
    ensures Trace(Dial, ss + [s'], es + [e])
  {
    var (ss', es') := (ss + [s'], es + [e]);
    forall k | 0 <= k < |es'| ensures StepsAt(Dial, ss', es', k) {
      if k < |es| { assert StepsAt(Dial, ss, es, k); }
    }
  }

  lemma Goes(ss: seq<Store>, es: seq<Event>, load: Option<nat>, m: Mutation, s': Store)
    returns (ss': seq<Store>, es': seq<Event>)
    requires Told(ss, es, load) && Allowed(ss[|es|], m) && Documented(ss[|es|], m) && s' == Apply(Dial, ss[|es|], m)
    requires load.Some? ==> load.value < |es|
    ensures Told(ss', es', load) && ss' == ss + [s'] && es' == es + [Mutate(m)]
  {
    ss', es' := ss + [s'], es + [Mutate(m)];
    TraceExtends(ss, es, Mutate(m), s');
  }

  lemma Adds(t: Table<Section>)
    requires t == NONE
    ensures Insert(t, Section("", false, 0)) == OFF && Selected(OFF, 1) == ON
  {
    assert Selected(OFF, 1).rows == ON.rows;
  }

  /** Create a row of each kind. */
  lemma Created() returns (ss: seq<Store>, es: seq<Event>)
    ensures Told(ss, es, None) && |es| == 3 && ss[3] == With(OFF, OFF, OFF, NO_GROUPS, NO_NODES, IDLE)
  {
    Adds(NONE);
    ss, es := [EMPTY], [];
    ss, es := Goes(ss, es, None, CreateSection(Global, ""), With(OFF, NONE, NONE, NO_GROUPS, NO_NODES, IDLE));
    ss, es := Goes(ss, es, None, CreateSection(Dns, ""), With(OFF, OFF, NONE, NO_GROUPS, NO_NODES, IDLE));
    ss, es := Goes(ss, es, None, CreateSection(Kind.Routing, ""), With(OFF, OFF, OFF, NO_GROUPS, NO_NODES, IDLE));
  }

  /** Select them. */
  lemma Chosen() returns (ss: seq<Store>, es: seq<Event>)
    ensures Told(ss, es, None) && |es| == 6 && ss[6] == With(ON, ON, ON, NO_GROUPS, NO_NODES, IDLE)
  {
    Adds(NONE);
    ss, es := Created();
    ss, es := Goes(ss, es, None, SelectSection(Global, 1), With(ON, OFF, OFF, NO_GROUPS, NO_NODES, IDLE));
    ss, es := Goes(ss, es, None, SelectSection(Dns, 1), With(ON, ON, OFF, NO_GROUPS, NO_NODES, IDLE));
    ss, es := Goes(ss, es, None, SelectSection(Kind.Routing, 1), With(ON, ON, ON, NO_GROUPS, NO_NODES, IDLE));
  }

  lemma NodeImported()
    ensures var args := [Arg("a://b", None)];
            TableAfter(Dial, NO_NODES, None, args, 1) == NODES && !AnyFatal(Dial, NO_NODES, None, args)
  {
    var (link, args) := ("a://b", [Arg("a://b", None)]);
    assert "://" <= link[1..];
    assert TableAfter(Dial, NO_NODES, None, args, 0) == NO_NODES;
    assert Imported(Dial, NO_NODES, None, args[0]) == (NODES, Ok(1));
  }

  lemma Joins()
    ensures Apply(Dial, With(ON, ON, ON, Groups({}, false), NODES, IDLE), AddNodes(1, {1})) == READY
    ensures Apply(Dial, CREATED, AddNodes(2, {1})) == TAKEN
  {
    var none: set<nat> := {};
    assert none + {1} == {1};
    assert CREATED.groups.rows[2 := Member("direct", {1}, false)] == TAKEN.groups.rows;
  }

  /** A node, and a group with it. */
  lemma Filled() returns (ss: seq<Store>, es: seq<Event>)
    ensures Told(ss, es, None) && |es| == 9 && ss[9] == READY
  {
    ss, es := Chosen();
    NodeImported();
    ss, es := Goes(ss, es, None, ImportNodes(false, [Arg("a://b", None)]), With(ON, ON, ON, NO_GROUPS, NODES, IDLE));
    ss, es := Goes(ss, es, None, CreateGroup("g", "random", []), With(ON, ON, ON, Groups({}, false), NODES, IDLE));
    Joins();
    ss, es := Goes(ss, es, None, AddNodes(1, {1}), READY);
  }

  lemma ReadyRecordable()
    ensures Recordable(READY, REC) && Recorded(READY, REC) == LOADED
  {
    forall k ensures IsSelected(READY, k, Pick(REC, k)) {
      match k case Global => case Dns => case Routing =>
    }
    assert Marked(READY.groups, [1]).rows == LOADED.groups.rows;
  }

  /** And a run. */
  lemma Ran() returns (ss: seq<Store>, es: seq<Event>)
    ensures Told(ss, es, Some(9)) && |es| == 10 && ss[9] == READY && es[9] == Load(REC) && ss[10] == LOADED
  {
    var before, earlier := Filled();
    ReadyRecordable();
    TraceExtends(before, earlier, Load(REC), LOADED);
    ss, es := before + [LOADED], earlier + [Load(REC)];
  }

  /** Then a group under the name of the preset that the routing uses. */
  lemma Took() returns (ss: seq<Store>, es: seq<Event>)
    ensures Told(ss, es, Some(9)) && |es| == 12 && ss[9] == READY && es[9] == Load(REC) && ss[12] == TAKEN
    ensures ss[10] == LOADED && ss[11] == CREATED && es[10].Mutate? && es[11].Mutate?
    ensures es[10].m == CreateGroup("direct", "random", []) && es[11].m == AddNodes(2, {1})
  {
    ss, es := Ran();
    ss, es := Goes(ss, es, Some(9), CreateGroup("direct", "random", []), CREATED);
    Joins();
    ss, es := Goes(ss, es, Some(9), AddNodes(2, {1}), TAKEN);
  }

  // ---- The configs ----

  function RowWith(id: nat, name: string, node: NodeRow): GroupRow
  {
    GroupRow(id, name, "random", [], [], [node])
  }

  ghost predicate AllWith(table: seq<GroupRow>, node: NodeRow)
  {
    forall k :: 0 <= k < |table| ==> table[k] == RowWith(table[k].id, table[k].name, node)
  }

  /** A section for each row, and one entry that gives `node` the name `name`. */
  function ConfigOf(table: seq<GroupRow>, node: NodeRow, name: string): C.Emitted
  {
    C.Emitted(seq(|table|, k requires 0 <= k < |table| => C.Section(table[k].name, [name], C.Named("random"))),
              [name + ":" + node.link])
  }

  /** A config whose only entry is the node's: what its filter resolves to. */
  lemma OneEntry(name: string, link: string)
    requires NameSafe(name)
    ensures C.SplitEntry(name + ":" + link) == (name, link)
    ensures forall l :: C.Resolves([name + ":" + link], [name], l) <==> l == link
  {
    var entries := [name + ":" + link];
    C.SplitOfEntry(name, link);
    assert C.SplitEntry(entries[0]).0 in [name];
  }

  lemma RowFeeds(re: Regexp, row: GroupRow, node: NodeRow)
    requires row == RowWith(row.id, row.name, node)
    ensures forall link :: FeedsLink(re, row, link) <==> link == node.link
    ensures RegexesOk(re, row) && C.Emittable(re, row)
  {
    assert Feeds(re, row, node);
    forall link ensures FeedsLink(re, row, link) <==> link == node.link {
      if FeedsLink(re, row, link) {
        var n :| Feeds(re, row, n) && n.link == link;
        assert n in row.solitary;
      }
    }
    assert FeedsLink(re, row, node.link);
  }

  lemma RowMeans(re: Regexp, table: seq<GroupRow>, node: NodeRow, name: string, k: nat)
    requires AllWith(table, node) && NameSafe(name) && k < |table|
    ensures var cfg := ConfigOf(table, node, name); C.SectionMeans(re, cfg.nodes, cfg.groups[k], table[k])
  {
    OneEntry(name, node.link);
    RowFeeds(re, table[k], node);
  }

  lemma ConfigMeans(re: Regexp, table: seq<GroupRow>, node: NodeRow, name: string)
    requires AllWith(table, node) && NameSafe(name) && C.NamesUnique(table)
    ensures C.GroupsFaithful(re, table, ConfigOf(table, node, name))
  {
    var cfg := ConfigOf(table, node, name);
    forall sec | sec in cfg.groups ensures C.MeansSome(re, table, cfg.nodes, sec) {
      var k :| 0 <= k < |cfg.groups| && cfg.groups[k] == sec;
      RowMeans(re, table, node, name, k);
      assert table[k] in table;
    }
    forall g | g in table ensures C.HasSection(cfg.groups, g.name) {
      var k :| 0 <= k < |table| && table[k] == g;
      assert cfg.groups[k] in cfg.groups;
    }
  }

  lemma EntryFaithful(re: Regexp, table: seq<GroupRow>, node: NodeRow, name: string)
    requires AllWith(table, node) && NameSafe(name) && table != []
    ensures C.NodesFaithful(re, table, ConfigOf(table, node, name).nodes)
  {
    OneEntry(name, node.link);
    RowFeeds(re, table[0], node);
    assert table[0] in table && C.WantedLink(re, table, node.link);
  }

  /** What ROUTING needs. */
  lemma Needs(name: string)
    ensures C.Needed(ROUTING, name) <==> name == "g" || name == "direct"
  {
    assert "direct"[0] != "must_"[0];
    assert C.OutboundOf(ROUTING.rules[0]) == "direct";
  }

  ghost predicate Fits(table: seq<GroupRow>, node: NodeRow)
  {
    && table != [] && AllWith(table, node) && table[0].name == "g" && C.NamesUnique(table)
    && forall k :: 0 <= k < |table| ==> table[k].name == "g" || table[k].name == "direct"
  }

  lemma ConfigCompiled(re: Regexp, table: seq<GroupRow>, node: NodeRow, name: string)
    requires Fits(table, node) && NameSafe(name)
    ensures Builds(re, table, ROUTING) && CompiledFrom(re, table, ROUTING, table, ConfigOf(table, node, name))
  {
    forall g | g in table ensures C.Needed(ROUTING, g.name) && RegexesOk(re, g) && C.Emittable(re, g) {
      Needs(g.name);
      RowFeeds(re, g, node);
    }
    ConfigMeans(re, table, node, name);
    EntryFaithful(re, table, node, name);
    forall n | C.Needed(ROUTING, n) && !C.Preset(n) ensures C.Defined(table, n) {
      Needs(n);
      assert table[0] in table;
    }
  }

  const TABLE0: seq<GroupRow> := [RowWith(1, "g", NODE)]

  /** The run of the traces. */
  lemma FirstRun(re: Regexp)
    ensures TableOf(READY, TABLE0) && RunOf(READY, re, Parse, TABLE0, REC, ConfigOf(TABLE0, NODE, "n"))
  {
    var cfg := ConfigOf(TABLE0, NODE, "n");
    ReadyRecordable();
    ReadyTable();
    assert NameSafe("n") && Fits(TABLE0, NODE);
    ConfigCompiled(re, TABLE0, NODE, "n");
    CompiledFaithful(re, TABLE0, ROUTING, TABLE0, cfg);
    C.Covered(re, TABLE0, ROUTING, TABLE0, cfg);
    Needs("g");
    forall id ensures id in REC.groups <==> NeededId(TABLE0, ROUTING, id) {
      assert TABLE0[0] in TABLE0;
    }
  }

  lemma ReadyTable()
    ensures TableOf(READY, TABLE0)
  {
    var row := TABLE0[0];
    assert READY.nodes.rows[1] == NODE;
    assert RowOf(READY, row);
    assert row in TABLE0 && Listed(TABLE0, 1);
  }

  // ---- The two inputs ----

  lemma LoadedUnmodified(ss: seq<Store>, es: seq<Event>)
    requires Trace(Dial, ss, es) && |es| >= 9 && ss[9] == READY
    ensures StoreInv(LOADED) && Unmodified(LOADED)
  {
    TraceInv(Dial, ss, es, 9);
    ReadyRecordable();
    RecordedInv(READY, REC);
    ModifiedSinceRun(Dial, READY, REC, [LOADED], [], 0);
    forall k ensures IsSelected(LOADED, k, Pick(REC, k)) {
      match k case Global => case Dns => case Routing =>
    }
  }

  /** A run on the store would load `cfg`. */
  ghost predicate WouldLoad(s: Store, re: Regexp, table: seq<GroupRow>, cfg: C.Emitted)
  {
    TableOf(s, table) && Runnable(s, re, Parse, table, 1, 1, 1) && Compiled(re, table, ROUTING, cfg)
  }

  lemma Loadable(s: Store, re: Regexp, table: seq<GroupRow>, node: NodeRow, name: string)
    requires TableOf(s, table) && Selection(s, 1, 1, 1) && Fits(table, node) && NameSafe(name)
    ensures WouldLoad(s, re, table, ConfigOf(table, node, name))
  {
    ConfigCompiled(re, table, node, name);
    assert Parsed(s, Parse, 1, 1, 1) == Some(ROUTING);
  }

  const TABLE1: seq<GroupRow> := [RowWith(1, "g", NODE), RowWith(2, "direct", NODE)]

  lemma MoreFits()
    ensures Fits(TABLE1, NODE) && NameSafe("n")
  {
    assert "g"[0] != "direct"[0];
  }

  lemma TakenTable()
    ensures TableOf(TAKEN, TABLE1) && Selection(TAKEN, 1, 1, 1)
  {
    assert TAKEN.nodes.rows[1] == NODE;
    assert RowOf(TAKEN, TABLE1[0]) && RowOf(TAKEN, TABLE1[1]);
    assert TABLE1[0] in TABLE1 && TABLE1[1] in TABLE1;
    assert Listed(TABLE1, 1) && Listed(TABLE1, 2);
  }

  lemma Creates()
    ensures Apply(Dial, LOADED, CreateGroup("direct", "random", [])) == CREATED
  {
  }

  lemma CreatedUnmodified()
    requires StoreInv(LOADED) && Unmodified(LOADED)
    ensures Unmodified(CREATED)
  {
    Creates();
    NewGroupSilent(Dial, LOADED, CreateGroup("direct", "random", []));
  }

  lemma TakenUnmodified()
    requires Unmodified(CREATED)
    ensures Unmodified(TAKEN)
  {
    Joins();
    OtherGroupsSilent(Dial, CREATED, AddNodes(2, {1}));
  }

  lemma TakenLoads(re: Regexp)
    ensures WouldLoad(TAKEN, re, TABLE1, ConfigOf(TABLE1, NODE, "n"))
  {
    TakenTable();
    MoreFits();
    Loadable(TAKEN, re, TABLE1, NODE, "n");
  }

  lemma MoreSections(node: NodeRow, name: string)
    ensures !Equivalent(ConfigOf(TABLE0, node, name), ConfigOf(TABLE1, node, name))
  {
    var (cfg0, cfg) := (ConfigOf(TABLE0, node, name), ConfigOf(TABLE1, node, name));
    assert cfg.groups[1] in cfg.groups && cfg.groups[1].name == "direct";
    assert forall sec :: sec in cfg0.groups ==> sec.name == "g";
    assert !FoundIn(cfg0, cfg.nodes, cfg.groups[1]);
  }

  /** After a run, a group is created under the name "direct" and given a node. `Modified` says no, all
      mutations were used as documented, and a run would load a config that is not equivalent. */
  lemma PresetTakenUnnoticed(re: Regexp) returns (ss: seq<Store>, es: seq<Event>, cfg0: C.Emitted, cfg: C.Emitted)
    ensures Trace(Dial, ss, es) && TraceDocumented(ss, es) && |es| == 12 && es[9] == Load(REC)
    ensures RunOf(ss[9], re, Parse, TABLE0, REC, cfg0)
    ensures ss[12].sys.running && Unmodified(ss[12]) && WouldLoad(ss[12], re, TABLE1, cfg) && !Equivalent(cfg0, cfg)
  {
    ss, es := Took();
    cfg0, cfg := ConfigOf(TABLE0, NODE, "n"), ConfigOf(TABLE1, NODE, "n");
    FirstRun(re);
    TakenLoads(re);
    MoreSections(NODE, "n");
    LoadedUnmodified(ss, es);
    CreatedUnmodified();
    TakenUnmodified();
  }

  const EDITED_NODE := NodeRow(1, "c://d", "m", None, None)
  const EDITED: Store := With(ON, ON, ON, Groups({1}, true), Table(map[1 := EDITED_NODE], 2), BUSY)
  const TABLE2: seq<GroupRow> := [RowWith(1, "g", EDITED_NODE)]

  lemma EditFits()
    ensures Fits(TABLE2, EDITED_NODE) && NameSafe("m")
  {
  }

  lemma EditedTable()
    ensures TableOf(EDITED, TABLE2) && Selection(EDITED, 1, 1, 1)
  {
    assert EDITED.nodes.rows[1] == EDITED_NODE;
    assert RowOf(EDITED, TABLE2[0]);
    assert TABLE2[0] in TABLE2 && Listed(TABLE2, 1);
  }

  lemma OtherLinks()
    ensures !Equivalent(ConfigOf(TABLE0, NODE, "n"), ConfigOf(TABLE2, EDITED_NODE, "m"))
  {
    var (cfg0, cfg) := (ConfigOf(TABLE0, NODE, "n"), ConfigOf(TABLE2, EDITED_NODE, "m"));
    assert NameSafe("n") && NameSafe("m") && "a://b"[0] != "c://d"[0];
    OneEntry("n", NODE.link);
    OneEntry("m", EDITED_NODE.link);
    assert cfg0.groups[0] in cfg0.groups;
    assert C.Resolves(cfg0.nodes, cfg0.groups[0].filter, NODE.link);
    assert forall sec :: sec in cfg.groups ==> sec == cfg.groups[0];
    assert !C.Resolves(cfg.nodes, cfg.groups[0].filter, NODE.link);
    assert !FoundIn(cfg, cfg0.nodes, cfg0.groups[0]);
  }

  lemma EditedLoads(re: Regexp)
    ensures WouldLoad(EDITED, re, TABLE2, ConfigOf(TABLE2, EDITED_NODE, "m"))
  {
    EditedTable();
    EditFits();
    Loadable(EDITED, re, TABLE2, EDITED_NODE, "m");
  }

  lemma Edited() returns (ss: seq<Store>, es: seq<Event>)
    ensures Trace(Dial, ss, es) && TraceDocumented(ss, es) && |es| == 11 && ss[9] == READY && es[9] == Load(REC)
    ensures es[10] == Mutate(UpdateNode(1, "c://d", "m")) && ss[11] == EDITED
  {
    ss, es := Ran();
    var m := UpdateNode(1, "c://d", "m");
    assert Apply(Dial, LOADED, m) == EDITED;
    TraceExtends(ss, es, Mutate(m), EDITED);
    ss, es := ss + [EDITED], es + [Mutate(m)];
  }

  /** The group has lost its link; no group has taken a preset's name. */
  lemma LinkLost(re: Regexp)
    ensures NoNewPreset(TABLE2, ROUTING, REC) && !LinksKept(re, READY, REC, EDITED)
  {
    assert "a://b"[0] != "c://d"[0];
    assert Gives(re, READY, READY.groups.rows[1], 1, "a://b");
    assert !GroupLink(re, EDITED, EDITED.groups.rows[1], "a://b");
    assert GroupLink(re, READY, READY.groups.rows[1], "a://b");
    assert !SameLinks(re, READY, READY.groups.rows[1], EDITED, EDITED.groups.rows[1]);
  }

  /** After a run, updateNode gives a node without a subscription another link. `Modified` says no, although all
      mutations were used as documented and no group has taken a preset's name, and a run would load a
      config that is not equivalent. */
  lemma NodeEditUnnoticed(re: Regexp) returns (ss: seq<Store>, es: seq<Event>, cfg0: C.Emitted, cfg: C.Emitted)
    ensures Trace(Dial, ss, es) && TraceDocumented(ss, es) && |es| == 11 && es[9] == Load(REC)
    ensures es[10] == Mutate(UpdateNode(1, "c://d", "m"))
    ensures RunOf(ss[9], re, Parse, TABLE0, REC, cfg0)
    ensures ss[11].sys.running && Unmodified(ss[11]) && WouldLoad(ss[11], re, TABLE2, cfg) && !Equivalent(cfg0, cfg)
    ensures NoNewPreset(TABLE2, ROUTING, REC) && !LinksKept(re, ss[9], REC, ss[11])
  {
    ss, es := Edited();
    cfg0, cfg := ConfigOf(TABLE0, NODE, "n"), ConfigOf(TABLE2, EDITED_NODE, "m");
    FirstRun(re);
    EditedLoads(re);
    OtherLinks();
    LoadedUnmodified(ss, es);
    NodesUnseen(LOADED, EDITED);
    LinkLost(re);
  }
}

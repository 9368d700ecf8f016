/** `Run` of graphql/service/config/mutation_utils.go from end to end on the database: find the selected
    rows, parse, compile, reload, and record what is running. */
module ConfigRun {
  import opened Wrappers
  import opened Database
  import opened Sequences
  import opened Tables
  import opened GroupMembers
  import opened NodeImport
  import opened Store
  import opened ChangeDetector
  import opened Preloading
  import opened Services
  import C = ConfigCompiler

  /** dae.ParseConfig on the selected texts; of the result only the routing matters here. */
  type Parser = (string, string, string) -> Option<C.Routing>

  datatype RunError = Unselected(kind: Kind) | Unparsable | Unbuildable(error: C.BuildError) | ReloadFailed

  function TextOf(s: Store, k: Kind, id: nat): string
  {
    if id in Sections(s, k).rows then Sections(s, k).rows[id].text else ""
  }

  function Parsed(s: Store, parse: Parser, c: nat, d: nat, r: nat): Option<C.Routing>
  {
    parse(TextOf(s, Global, c), TextOf(s, Dns, d), TextOf(s, Kind.Routing, r))
  }

  function RoutingOf(s: Store, parse: Parser, rec: Recording): Option<C.Routing>
  {
    Parsed(s, parse, rec.config, rec.dns, rec.routing)
  }

  /** Each text is parsed in its own role. */
  lemma RoutingOfTexts(s: Store, parse: Parser, rec: Recording)
    requires Recordable(s, rec)
    ensures rec.config in s.configs.rows && rec.dns in s.dnss.rows && rec.routing in s.routings.rows
    ensures RoutingOf(s, parse, rec) ==
            parse(s.configs.rows[rec.config].text, s.dnss.rows[rec.dns].text, s.routings.rows[rec.routing].text)
  {
    assert IsSelected(s, Global, Pick(rec, Global)) && IsSelected(s, Dns, Pick(rec, Dns));
    assert IsSelected(s, Kind.Routing, Pick(rec, Kind.Routing));
  }

  /** The routing can be built on the table: all it needs is there, compiles and has its links. */
  ghost predicate Builds(re: Regexp, table: seq<GroupRow>, routing: C.Routing)
  {
    && C.AllDefined(table, routing)
    && forall g :: g in table && C.Needed(routing, g.name) ==> RegexesOk(re, g) && C.Emittable(re, g)
  }

  ghost predicate NeededId(table: seq<GroupRow>, routing: C.Routing, id: nat)
  {
    exists row :: row in table && row.id == id && C.Needed(routing, row.name)
  }

  /** The section stands for a group of the table that the routing needs. */
  ghost predicate MeansNeeded(re: Regexp, table: seq<GroupRow>, routing: C.Routing, entries: seq<string>,
                              sec: C.Section)
  {
    exists row :: row in table && C.Needed(routing, row.name) && C.SectionMeans(re, entries, sec, row)
  }

  /** The config is a faithful compilation of what the routing needs of the table. */
  ghost predicate Faithful(re: Regexp, table: seq<GroupRow>, routing: C.Routing, cfg: C.Emitted)
  {
    && (forall sec :: sec in cfg.groups ==> MeansNeeded(re, table, routing, cfg.nodes, sec))
    && (forall row :: row in table && C.Needed(routing, row.name) ==> C.HasSection(cfg.groups, row.name))
  }

  /** All that the compiler promises: one faithful section per needed group, under distinct names, and node
      entries with distinct names and links, none of which is unwanted. */
  ghost predicate CompiledFrom(re: Regexp, table: seq<GroupRow>, routing: C.Routing, groups: seq<GroupRow>,
                               cfg: C.Emitted)
  {
    C.NeededGroups(table, routing, groups) && C.GroupsFaithful(re, groups, cfg) &&
    C.NodesFaithful(re, groups, cfg.nodes)
  }

  ghost predicate Compiled(re: Regexp, table: seq<GroupRow>, routing: C.Routing, cfg: C.Emitted)
  {
    exists groups :: CompiledFrom(re, table, routing, groups, cfg)
  }

  /** What a successful run on the store loaded and recorded. */
  ghost predicate RunOf(s: Store, re: Regexp, parse: Parser, table: seq<GroupRow>, rec: Recording, cfg: C.Emitted)
  {
    && Recordable(s, rec) && RoutingOf(s, parse, rec).Some?
    && var routing := RoutingOf(s, parse, rec).value;
    && Builds(re, table, routing) && Compiled(re, table, routing, cfg) && Faithful(re, table, routing, cfg)
    && C.OutboundsCovered(routing, cfg)
    && forall id :: id in rec.groups <==> NeededId(table, routing, id)
  }

  ghost predicate Selection(s: Store, c: nat, d: nat, r: nat)
  {
    IsSelected(s, Global, c) && IsSelected(s, Dns, d) && IsSelected(s, Kind.Routing, r)
  }

  /** The selection can be compiled. */
  ghost predicate Runnable(s: Store, re: Regexp, parse: Parser, table: seq<GroupRow>, c: nat, d: nat, r: nat)
  {
    && Selection(s, c, d, r) && Parsed(s, parse, c, d, r).Some?
    && Builds(re, table, Parsed(s, parse, c, d, r).value)
  }

  /** The selection cannot be compiled, and the error tells the truth about it. */
  ghost predicate Refused(s: Store, re: Regexp, parse: Parser, table: seq<GroupRow>, c: nat, d: nat, r: nat,
                          groups: seq<GroupRow>, err: C.BuildError)
  {
    && Selection(s, c, d, r) && Parsed(s, parse, c, d, r).Some?
    && var routing := Parsed(s, parse, c, d, r).value;
    && !Builds(re, table, routing) && C.NeededGroups(table, routing, groups)
    && C.Genuine(re, table, routing, groups, err)
  }

  /** Why a run failed. */
  ghost predicate Justified(s: Store, re: Regexp, parse: Parser, table: seq<GroupRow>, reloads: bool, err: RunError)
  {
    match err
    case Unselected(k) => NothingSelected(s, k)
    case Unparsable => exists c, d, r :: Selection(s, c, d, r) && Parsed(s, parse, c, d, r) == None
    case Unbuildable(error) => exists c, d, r, groups :: Refused(s, re, parse, table, c, d, r, groups, error)
    case ReloadFailed => !reloads && exists c, d, r :: Runnable(s, re, parse, table, c, d, r)
  }

  method IdsOf(groups: seq<GroupRow>) returns (ids: seq<nat>)
    ensures |ids| == |groups| && forall k :: 0 <= k < |groups| ==> ids[k] == groups[k].id
  {
    ids := [];
    for k := 0 to |groups|
      invariant |ids| == k && forall j :: 0 <= j < k ==> ids[j] == groups[j].id
    {
      ids := ids + [groups[k].id];
    }
  }

  lemma IdsDistinct(s: Store, table: seq<GroupRow>, groups: seq<GroupRow>, ids: seq<nat>)
    requires TableOf(s, table) && C.NamesUnique(groups) && forall g :: g in groups ==> g in table
    requires |ids| == |groups| && forall k :: 0 <= k < |groups| ==> ids[k] == groups[k].id
    ensures Distinct(ids) && forall id :: id in ids ==> id in s.groups.rows
  {
    forall i, j | 0 <= i < j < |ids| ensures ids[i] != ids[j] {
      assert groups[i] in groups && groups[j] in groups;
      var p :| 0 <= p < |table| && table[p] == groups[i];
      var q :| 0 <= q < |table| && table[q] == groups[j];
      assert groups[i].name != groups[j].name;
    }
    forall id | id in ids ensures id in s.groups.rows {
      var k :| 0 <= k < |ids| && ids[k] == id;
      assert RowOf(s, groups[k]);
    }
  }

  lemma BuildsExactly(re: Regexp, table: seq<GroupRow>, routing: C.Routing, groups: seq<GroupRow>)
    requires C.NeededGroups(table, routing, groups)
    ensures Builds(re, table, routing) <==> C.AllDefined(table, routing) && C.AllBuildable(re, groups)
  {
  }

  lemma CompiledFaithful(re: Regexp, table: seq<GroupRow>, routing: C.Routing, groups: seq<GroupRow>, cfg: C.Emitted)
    requires C.NeededGroups(table, routing, groups) && C.GroupsFaithful(re, groups, cfg)
    ensures Faithful(re, table, routing, cfg)
  {
    forall sec | sec in cfg.groups ensures MeansNeeded(re, table, routing, cfg.nodes, sec) {
      assert C.MeansSome(re, groups, cfg.nodes, sec);
      var g :| g in groups && C.SectionMeans(re, cfg.nodes, sec, g);
    }
  }

  lemma NeededIds(table: seq<GroupRow>, routing: C.Routing, groups: seq<GroupRow>, ids: seq<nat>)
    requires C.NeededGroups(table, routing, groups)
    requires |ids| == |groups| && forall k :: 0 <= k < |groups| ==> ids[k] == groups[k].id
    ensures forall id :: id in ids <==> NeededId(table, routing, id)
  {
    forall id ensures id in ids <==> NeededId(table, routing, id) {
      if id in ids {
        var k :| 0 <= k < |ids| && ids[k] == id;
        assert groups[k] in groups;
      }
      if row :| row in table && row.id == id && C.Needed(routing, row.name) {
        var k :| 0 <= k < |groups| && groups[k] == row;
        assert ids[k] == id;
      }
    }
  }

  /** The selected ids, or the first kind without one. */
  method SelectedIds(db: WingDb) returns (r: Result<(nat, nat, nat), Kind>)
    ensures r.Ok? ==> Selection(db.View(), r.value.0, r.value.1, r.value.2)
    ensures r.Err? ==> NothingSelected(db.View(), r.error)
  {
    var c := FirstSelected(db.configs);
    if c.None? {
      assert NothingSelected(db.View(), Global);
      return Err(Global);
    }
    var d := FirstSelected(db.dnss);
    if d.None? {
      assert NothingSelected(db.View(), Dns);
      return Err(Dns);
    }
    var r' := FirstSelected(db.routings);
    if r'.None? {
      assert NothingSelected(db.View(), Kind.Routing);
      return Err(Kind.Routing);
    }
    assert Selection(db.View(), c.value, d.value, r'.value);
    return Ok((c.value, d.value, r'.value));
  }

  lemma SelectionRecordable(s: Store, c: nat, d: nat, r: nat, ids: seq<nat>)
    requires Selection(s, c, d, r) && Distinct(ids) && forall id :: id in ids ==> id in s.groups.rows
    ensures Recordable(s, Recording(c, d, r, ids))
  {
    forall k ensures IsSelected(s, k, Pick(Recording(c, d, r, ids), k)) {
      match k case Global => case Dns => case Routing =>
    }
  }

  method Build(s: Store, re: Regexp, parse: Parser, table: seq<GroupRow>, c: nat, d: nat, r: nat)
    returns (out: Result<C.Emitted, RunError>, ids: seq<nat>)
    requires SchemaInv(s) && TableOf(s, table) && Selection(s, c, d, r)
    ensures out.Ok? ==> RunOf(s, re, parse, table, Recording(c, d, r, ids), out.value)
    ensures out.Err? ==> Justified(s, re, parse, table, true, out.error)
  {
    ids := [];
    var routing := parse(s.configs.rows[c].text, s.dnss.rows[d].text, s.routings.rows[r].text);
    assert routing == Parsed(s, parse, c, d, r);
    if routing.None? {
      return Err(Unparsable), ids;
    }
    TableWellFormed(s, table);
    var cfg, groups := C.Compile(re, table, routing.value);
    BuildsExactly(re, table, routing.value, groups);
    if cfg.Err? {
      assert Refused(s, re, parse, table, c, d, r, groups, cfg.error);
      return Err(Unbuildable(cfg.error)), ids;
    }
    assert CompiledFrom(re, table, routing.value, groups, cfg.value);
    ids := IdsOf(groups);
    IdsDistinct(s, table, groups, ids);
    NeededIds(table, routing.value, groups, ids);
    CompiledFaithful(re, table, routing.value, groups, cfg.value);
    SelectionRecordable(s, c, d, r, ids);
    return Ok(cfg.value), ids;
  }

  /** `Run` with noLoad false, holding runLock; `reloads` is the answer of the event loop. It changes the
      store only if it succeeds, and then records exactly what the loaded config was compiled from. */
  method Run(db: WingDb, re: Regexp, parse: Parser, table: seq<GroupRow>, reloads: bool)
    returns (r: Result<C.Emitted, RunError>, ghost rec: Recording)
    requires SchemaInv(db.View()) && TableOf(db.View(), table)
    modifies db
    ensures r.Ok? ==> reloads && RunOf(old(db.View()), re, parse, table, rec, r.value)
    ensures r.Ok? ==> db.View() == Recorded(old(db.View()), rec)
    ensures r.Err? ==> db.View() == old(db.View()) && Justified(old(db.View()), re, parse, table, reloads, r.error)
  {
    rec := Recording(0, 0, 0, []);
    var selected := SelectedIds(db);
    if selected.Err? {
      return Err(Unselected(selected.error)), rec;
    }
    var (c, d, routing) := selected.value;
    var built, ids := Build(db.View(), re, parse, table, c, d, routing);
    if built.Err? {
      return Err(built.error), rec;
    }
    assert Runnable(db.View(), re, parse, table, c, d, routing);
    if !reloads {
      return Err(ReloadFailed), rec;
    }
    rec := Recording(c, d, routing, ids);
    db.Record(Recording(c, d, routing, ids));
    return Ok(built.value), rec;
  }

  /** The errors are exclusive with success: on a store that can be run none but ReloadFailed is justified. */
  lemma RunnableNotRefused(s: Store, re: Regexp, parse: Parser, table: seq<GroupRow>, c: nat, d: nat, r: nat,
                           err: RunError)
    requires SectionsInv(s) && Runnable(s, re, parse, table, c, d, r)
    ensures !Justified(s, re, parse, table, true, err)
  {
    forall c', d', r' | Selection(s, c', d', r') ensures c' == c && d' == d && r' == r {
      assert Exclusive(Sections(s, Global)) && Exclusive(Sections(s, Dns)) && Exclusive(Sections(s, Kind.Routing));
    }
    if err.Unselected? {
      assert IsSelected(s, err.kind, match err.kind case Global => c case Dns => d case Routing => r);
    }
  }

  // ---- restoreRunningState of cmd/run.go ----

  /** `shouldReload`: not on a store that is not running, and an error when no config is selected. */
  method ShouldReload(db: WingDb) returns (r: Option<bool>)
    ensures r == if !db.sys.running then Some(false)
                 else if NothingSelected(db.View(), Global) then None else Some(true)
  {
    if !db.sys.running {
      return Some(false);
    }
    var selected := FirstSelected(db.configs);
    if selected.None? {
      assert NothingSelected(db.View(), Global);
      return None;
    }
    assert IsSelected(db.View(), Global, selected.value);
    return Some(true);
  }

  /** At start-up: run what is selected if the store says "running", and if that fails say so no more.
      A store without a selected config is left as it is: it keeps saying "running" although nothing
      was loaded. */
  method RestoreRunningState(ghost dial: Dialer, db: WingDb, re: Regexp, parse: Parser, table: seq<GroupRow>,
                             reloads: bool)
    returns (loaded: Option<C.Emitted>, ghost rec: Recording)
    requires SchemaInv(db.View()) && TableOf(db.View(), table)
    modifies db
    ensures loaded.Some? ==> reloads && RunOf(old(db.View()), re, parse, table, rec, loaded.value)
    ensures loaded.Some? ==> old(db.sys.running) && db.View() == Recorded(old(db.View()), rec)
    ensures loaded.None? ==> db.View() == if NothingSelected(old(db.View()), Global) then old(db.View())
                                          else Apply(dial, old(db.View()), Stop)
    ensures loaded.None? && old(db.sys.running) ==>
              exists err :: Justified(old(db.View()), re, parse, table, reloads, err)
    ensures db.sys.running <==> loaded.Some? || (old(db.sys.running) && NothingSelected(old(db.View()), Global))
  {
    rec := Recording(0, 0, 0, []);
    var reload := ShouldReload(db);
    if reload.None? {
      assert Justified(db.View(), re, parse, table, reloads, Unselected(Global));
      return None, rec;
    }
    if !reload.value {
      return None, rec;
    }
    var r;
    r, rec := Run(db, re, parse, table, reloads);
    if r.Err? {
      db.SetStopped(dial);
      return None, rec;
    }
    return Some(r.value), rec;
  }
}

/** What a "no" of `Modified` is worth: a run from the present database would load the config that the
    last run loaded. It holds exactly if no group has been created meanwhile under the name of a preset
    outbound that the routing uses, and every recorded group still has the links that were loaded. */
module RunAgain {
  import opened Wrappers
  import opened Database
  import opened Tables
  import opened NodeImport
  import opened GroupMembers
  import opened Store
  import opened StoreHistory
  import opened ChangeDetector
  import opened ModifiedSoundness
  import opened Preloading
  import opened Recompile
  import opened ConfigRun
  import C = ConfigCompiler

  /** `rec` and `cfg0` are of a run on `pre`; in `s` every recorded row has kept its version, and every
      recorded group its row, bindings and members. */
  ghost predicate Settled(re: Regexp, parse: Parser, pre: Store, table0: seq<GroupRow>, rec: Recording,
                          cfg0: C.Emitted, s: Store, table: seq<GroupRow>)
  {
    && SchemaInv(pre) && SchemaInv(s) && TableOf(pre, table0) && TableOf(s, table)
    && RunOf(pre, re, parse, table0, rec, cfg0)
    && LoadedVersions(pre, rec, s) && LoadedGroups(pre, rec, s)
  }

  lemma SameRouting(parse: Parser, pre: Store, rec: Recording, s: Store)
    requires LoadedVersions(pre, rec, s)
    ensures RoutingOf(s, parse, rec) == RoutingOf(pre, parse, rec) && Selection(s, rec.config, rec.dns, rec.routing)
  {
    assert SameSection(pre, s, Global, Pick(rec, Global)) && IsSelected(s, Global, Pick(rec, Global));
    assert SameSection(pre, s, Dns, Pick(rec, Dns)) && IsSelected(s, Dns, Pick(rec, Dns));
    assert SameSection(pre, s, Kind.Routing, Pick(rec, Kind.Routing)) &&
           IsSelected(s, Kind.Routing, Pick(rec, Kind.Routing));
  }

  /** Two rows of the same group, */
  ghost predicate Akin(re: Regexp, row0: GroupRow, row: GroupRow)
  {
    && row0.name == row.name && row0.policy == row.policy && row0.params == row.params
    && (RegexesOk(re, row0) ==> RegexesOk(re, row))
  }

  ghost predicate SameFeed(re: Regexp, row0: GroupRow, row: GroupRow)
  {
    forall link :: FeedsLink(re, row0, link) <==> FeedsLink(re, row, link)
  }

  /** that compile alike. */
  ghost predicate Alike(re: Regexp, row0: GroupRow, row: GroupRow)
  {
    Akin(re, row0, row) && SameFeed(re, row0, row)
  }

  lemma RegexesAgain(re: Regexp, s0: Store, g0: Group, row0: GroupRow, s: Store, g: Group, row: GroupRow)
    requires Presents(s0, g0, row0) && Presents(s, g, row) && g0.bindings == g.bindings && RegexesOk(re, row0)
    ensures RegexesOk(re, row)
  {
    forall k | 0 <= k < |row.bindings| ensures RegexOk(re, row.bindings[k]) {
      var b := row.bindings[k];
      assert BindingStored(s, g, b);
      var sub :| sub in g.bindings && PresentsBinding(s, sub, g.bindings[sub], b);
      assert BindingPresented(s0, g0, row0, sub);
      var b0 :| b0 in row0.bindings && PresentsBinding(s0, sub, g0.bindings[sub], b0);
      var k0 :| 0 <= k0 < |row0.bindings| && row0.bindings[k0] == b0;
      assert RegexOk(re, row0.bindings[k0]);
    }
  }

  lemma RowsAkin(re: Regexp, s0: Store, g0: Group, row0: GroupRow, s: Store, g: Group, row: GroupRow)
    requires Presents(s0, g0, row0) && Presents(s, g, row) && SameGroup(g0, g)
    ensures Akin(re, row0, row) && (SameFeed(re, row0, row) <==> SameLinks(re, s0, g0, s, g))
  {
    if RegexesOk(re, row0) { RegexesAgain(re, s0, g0, row0, s, g, row); }
    forall link
      ensures FeedsLink(re, row0, link) <==> GroupLink(re, s0, g0, link)
      ensures FeedsLink(re, row, link) <==> GroupLink(re, s, g, link)
    {
      PresentedLinks(re, s0, g0, row0, link);
      PresentedLinks(re, s, g, row, link);
    }
  }

  /** A recorded row is still in the table; it compiles alike if and only if its group has kept its links. */
  lemma RowAgain(re: Regexp, parse: Parser, pre: Store, table0: seq<GroupRow>, rec: Recording, cfg0: C.Emitted,
                 s: Store, table: seq<GroupRow>, row0: GroupRow) returns (row: GroupRow)
    requires Settled(re, parse, pre, table0, rec, cfg0, s, table)
    requires row0 in table0 && C.Needed(RoutingOf(pre, parse, rec).value, row0.name)
    ensures row in table && row.id == row0.id && row.id in rec.groups && Akin(re, row0, row)
    ensures row.id in pre.groups.rows && row.id in s.groups.rows
    ensures SameFeed(re, row0, row) <==> SameLinks(re, pre, pre.groups.rows[row.id], s, s.groups.rows[row.id])
    ensures LinksKept(re, pre, rec, s) ==> Alike(re, row0, row)
  {
    var id := row0.id;
    assert NeededId(table0, RoutingOf(pre, parse, rec).value, id);
    assert id in s.groups.rows && SameGroup(pre.groups.rows[id], s.groups.rows[id]);
    assert Listed(table, id);
    row :| row in table && row.id == id;
    assert RowOf(pre, row0) && RowOf(s, row);
    RowsAkin(re, pre, pre.groups.rows[id], row0, s, s.groups.rows[id], row);
  }

  // ---- Rows of the present table ----

  /** No group under the name of a preset that the routing uses, but those of the last run. */
  ghost predicate NoNewPreset(table: seq<GroupRow>, routing: C.Routing, rec: Recording)
  {
    forall row :: row in table && C.Needed(routing, row.name) && C.Preset(row.name) ==> row.id in rec.groups
  }

  ghost predicate Before(re: Regexp, table0: seq<GroupRow>, routing: C.Routing, row: GroupRow)
  {
    exists row0 :: row0 in table0 && C.Needed(routing, row0.name) && Alike(re, row0, row)
  }

  lemma SameIdSameRow(s: Store, table: seq<GroupRow>, q: GroupRow, r: GroupRow)
    requires TableOf(s, table) && q in table && r in table && q.id == r.id
    ensures q == r
  {
    var i :| 0 <= i < |table| && table[i] == q;
    var j :| 0 <= j < |table| && table[j] == r;
  }

  lemma SameNameSameRow(s: Store, table: seq<GroupRow>, q: GroupRow, r: GroupRow)
    requires SchemaInv(s) && TableOf(s, table) && q in table && r in table && q.name == r.name
    ensures q == r
  {
    assert RowOf(s, q) && RowOf(s, r);
    SameIdSameRow(s, table, q, r);
  }

  lemma RecordedBefore(re: Regexp, parse: Parser, pre: Store, table0: seq<GroupRow>, rec: Recording, cfg0: C.Emitted,
                       s: Store, table: seq<GroupRow>, row: GroupRow)
    requires Settled(re, parse, pre, table0, rec, cfg0, s, table) && LinksKept(re, pre, rec, s)
    requires row in table && row.id in rec.groups
    ensures Before(re, table0, RoutingOf(pre, parse, rec).value, row)
  {
    var routing := RoutingOf(pre, parse, rec).value;
    assert NeededId(table0, routing, row.id);
    var row0 :| row0 in table0 && row0.id == row.id && C.Needed(routing, row0.name);
    var again := RowAgain(re, parse, pre, table0, rec, cfg0, s, table, row0);
    SameIdSameRow(s, table, again, row);
  }

  lemma RecordedOrPreset(re: Regexp, parse: Parser, pre: Store, table0: seq<GroupRow>, rec: Recording, cfg0: C.Emitted,
                         s: Store, table: seq<GroupRow>, row: GroupRow)
    requires Settled(re, parse, pre, table0, rec, cfg0, s, table)
    requires row in table && C.Needed(RoutingOf(pre, parse, rec).value, row.name)
    ensures row.id in rec.groups || C.Preset(row.name)
  {
    if !C.Preset(row.name) {
      assert C.Defined(table0, row.name);
      var row0 :| row0 in table0 && row0.name == row.name;
      var again := RowAgain(re, parse, pre, table0, rec, cfg0, s, table, row0);
      SameNameSameRow(s, table, again, row);
    }
  }

  lemma NeededBefore(re: Regexp, parse: Parser, pre: Store, table0: seq<GroupRow>, rec: Recording, cfg0: C.Emitted,
                     s: Store, table: seq<GroupRow>, row: GroupRow)
    requires Settled(re, parse, pre, table0, rec, cfg0, s, table)
    requires NoNewPreset(table, RoutingOf(pre, parse, rec).value, rec) && LinksKept(re, pre, rec, s)
    requires row in table && C.Needed(RoutingOf(pre, parse, rec).value, row.name)
    ensures Before(re, table0, RoutingOf(pre, parse, rec).value, row)
  {
    RecordedOrPreset(re, parse, pre, table0, rec, cfg0, s, table, row);
    RecordedBefore(re, parse, pre, table0, rec, cfg0, s, table, row);
  }

  // ---- The run would succeed ----

  lemma AlikeBuilds(re: Regexp, row0: GroupRow, row: GroupRow)
    requires Alike(re, row0, row) && RegexesOk(re, row0) && C.Emittable(re, row0)
    ensures RegexesOk(re, row) && C.Emittable(re, row)
  {
    var link :| FeedsLink(re, row0, link);
    assert FeedsLink(re, row, link);
  }

  lemma DefinedAgain(re: Regexp, parse: Parser, pre: Store, table0: seq<GroupRow>, rec: Recording, cfg0: C.Emitted,
                     s: Store, table: seq<GroupRow>, name: string)
    requires Settled(re, parse, pre, table0, rec, cfg0, s, table)
    requires C.Needed(RoutingOf(pre, parse, rec).value, name) && !C.Preset(name)
    ensures C.Defined(table, name)
  {
    assert C.Defined(table0, name);
    var row0 :| row0 in table0 && row0.name == name;
    var row := RowAgain(re, parse, pre, table0, rec, cfg0, s, table, row0);
  }

  lemma BuildsAgain(re: Regexp, parse: Parser, pre: Store, table0: seq<GroupRow>, rec: Recording, cfg0: C.Emitted,
                    s: Store, table: seq<GroupRow>)
    requires Settled(re, parse, pre, table0, rec, cfg0, s, table)
    requires NoNewPreset(table, RoutingOf(pre, parse, rec).value, rec) && LinksKept(re, pre, rec, s)
    ensures Runnable(s, re, parse, table, rec.config, rec.dns, rec.routing)
  {
    var routing := RoutingOf(pre, parse, rec).value;
    SameRouting(parse, pre, rec, s);
    forall name | C.Needed(routing, name) && !C.Preset(name) ensures C.Defined(table, name) {
      DefinedAgain(re, parse, pre, table0, rec, cfg0, s, table, name);
    }
    forall row | row in table && C.Needed(routing, row.name) ensures RegexesOk(re, row) && C.Emittable(re, row) {
      NeededBefore(re, parse, pre, table0, rec, cfg0, s, table, row);
      var row0 :| row0 in table0 && C.Needed(routing, row0.name) && Alike(re, row0, row);
      AlikeBuilds(re, row0, row);
    }
  }

  // ---- And load the same ----

  /** Sections of two configs that give dae the same group. */
  ghost predicate Interchangeable(entries0: seq<string>, sec0: C.Section, entries: seq<string>, sec: C.Section)
  {
    && sec0.name == sec.name && sec0.policy == sec.policy
    && forall link :: C.Resolves(entries0, sec0.filter, link) <==> C.Resolves(entries, sec.filter, link)
  }

  ghost predicate FoundIn(cfg: C.Emitted, entries0: seq<string>, sec0: C.Section)
  {
    exists sec :: sec in cfg.groups && Interchangeable(entries0, sec0, cfg.nodes, sec)
  }

  /** Each config has an interchangeable section for every section of the other. */
  ghost predicate Equivalent(cfg0: C.Emitted, cfg: C.Emitted)
  {
    && (forall sec0 :: sec0 in cfg0.groups ==> FoundIn(cfg, cfg0.nodes, sec0))
    && (forall sec :: sec in cfg.groups ==> FoundIn(cfg0, cfg.nodes, sec))
  }

  lemma AlikeSections(re: Regexp, row0: GroupRow, row: GroupRow, entries0: seq<string>, sec0: C.Section,
                      entries: seq<string>, sec: C.Section)
    requires Alike(re, row0, row) && C.SectionMeans(re, entries0, sec0, row0) && C.SectionMeans(re, entries, sec, row)
    ensures Interchangeable(entries0, sec0, entries, sec) && Interchangeable(entries, sec, entries0, sec0)
  {
    forall link ensures C.Resolves(entries0, sec0.filter, link) <==> C.Resolves(entries, sec.filter, link) {
      assert FeedsLink(re, row0, link) <==> FeedsLink(re, row, link);
    }
  }

  /** The section of a needed row means that row. */
  lemma SectionOfRow(s: Store, re: Regexp, table: seq<GroupRow>, routing: C.Routing, cfg: C.Emitted, row: GroupRow)
    returns (sec: C.Section)
    requires SchemaInv(s) && TableOf(s, table) && Faithful(re, table, routing, cfg)
    requires row in table && C.Needed(routing, row.name)
    ensures sec in cfg.groups && C.SectionMeans(re, cfg.nodes, sec, row)
  {
    assert C.HasSection(cfg.groups, row.name);
    sec :| sec in cfg.groups && sec.name == row.name;
    assert MeansNeeded(re, table, routing, cfg.nodes, sec);
    var other :| other in table && C.Needed(routing, other.name) && C.SectionMeans(re, cfg.nodes, sec, other);
    SameNameSameRow(s, table, other, row);
  }

  lemma SectionAgain(re: Regexp, parse: Parser, pre: Store, table0: seq<GroupRow>, rec: Recording, cfg0: C.Emitted,
                     s: Store, table: seq<GroupRow>, cfg: C.Emitted, sec0: C.Section)
    requires Settled(re, parse, pre, table0, rec, cfg0, s, table) && sec0 in cfg0.groups && LinksKept(re, pre, rec, s)
    requires Faithful(re, table, RoutingOf(pre, parse, rec).value, cfg)
    ensures FoundIn(cfg, cfg0.nodes, sec0)
  {
    var routing := RoutingOf(pre, parse, rec).value;
    assert MeansNeeded(re, table0, routing, cfg0.nodes, sec0);
    var row0 :| row0 in table0 && C.Needed(routing, row0.name) && C.SectionMeans(re, cfg0.nodes, sec0, row0);
    var row := RowAgain(re, parse, pre, table0, rec, cfg0, s, table, row0);
    var sec := SectionOfRow(s, re, table, routing, cfg, row);
    AlikeSections(re, row0, row, cfg0.nodes, sec0, cfg.nodes, sec);
  }

  lemma SectionBefore(re: Regexp, parse: Parser, pre: Store, table0: seq<GroupRow>, rec: Recording, cfg0: C.Emitted,
                      s: Store, table: seq<GroupRow>, cfg: C.Emitted, sec: C.Section)
    requires Settled(re, parse, pre, table0, rec, cfg0, s, table) && sec in cfg.groups
    requires Faithful(re, table, RoutingOf(pre, parse, rec).value, cfg)
    requires NoNewPreset(table, RoutingOf(pre, parse, rec).value, rec) && LinksKept(re, pre, rec, s)
    ensures FoundIn(cfg0, cfg.nodes, sec)
  {
    var routing := RoutingOf(pre, parse, rec).value;
    assert MeansNeeded(re, table, routing, cfg.nodes, sec);
    var row :| row in table && C.Needed(routing, row.name) && C.SectionMeans(re, cfg.nodes, sec, row);
    NeededBefore(re, parse, pre, table0, rec, cfg0, s, table, row);
    var row0 :| row0 in table0 && C.Needed(routing, row0.name) && Alike(re, row0, row);
    var sec0 := SectionOfRow(pre, re, table0, routing, cfg0, row0);
    AlikeSections(re, row0, row, cfg0.nodes, sec0, cfg.nodes, sec);
  }

  /** A section for a row means that the run recorded its id. */
  lemma SectionRecorded(re: Regexp, parse: Parser, pre: Store, table0: seq<GroupRow>, rec: Recording, cfg0: C.Emitted,
                        s: Store, table: seq<GroupRow>, row: GroupRow, sec0: C.Section)
    requires Settled(re, parse, pre, table0, rec, cfg0, s, table)
    requires row in table && sec0 in cfg0.groups && sec0.name == row.name
    ensures row.id in rec.groups
  {
    var routing := RoutingOf(pre, parse, rec).value;
    assert MeansNeeded(re, table0, routing, cfg0.nodes, sec0);
    var row0 :| row0 in table0 && C.Needed(routing, row0.name) && C.SectionMeans(re, cfg0.nodes, sec0, row0);
    var again := RowAgain(re, parse, pre, table0, rec, cfg0, s, table, row0);
    SameNameSameRow(s, table, again, row);
  }

  lemma NoNewPresetIf(re: Regexp, parse: Parser, pre: Store, table0: seq<GroupRow>, rec: Recording, cfg0: C.Emitted,
                      s: Store, table: seq<GroupRow>, cfg: C.Emitted)
    requires Settled(re, parse, pre, table0, rec, cfg0, s, table)
    requires Faithful(re, table, RoutingOf(pre, parse, rec).value, cfg) && Equivalent(cfg0, cfg)
    ensures NoNewPreset(table, RoutingOf(pre, parse, rec).value, rec)
  {
    var routing := RoutingOf(pre, parse, rec).value;
    forall row | row in table && C.Needed(routing, row.name) && C.Preset(row.name) ensures row.id in rec.groups {
      var sec := SectionOfRow(s, re, table, routing, cfg, row);
      assert FoundIn(cfg0, cfg.nodes, sec);
      var sec0 :| sec0 in cfg0.groups && Interchangeable(cfg.nodes, sec, cfg0.nodes, sec0);
      SectionRecorded(re, parse, pre, table0, rec, cfg0, s, table, row, sec0);
    }
  }

  /** A row whose section can be found again feeds the same links. */
  lemma FoundFeeds(re: Regexp, parse: Parser, pre: Store, table0: seq<GroupRow>, rec: Recording, cfg0: C.Emitted,
                   s: Store, table: seq<GroupRow>, cfg: C.Emitted, row0: GroupRow, row: GroupRow)
    requires Settled(re, parse, pre, table0, rec, cfg0, s, table)
    requires Faithful(re, table, RoutingOf(pre, parse, rec).value, cfg) && Equivalent(cfg0, cfg)
    requires row0 in table0 && row in table && row0.name == row.name
    requires C.Needed(RoutingOf(pre, parse, rec).value, row0.name)
    ensures SameFeed(re, row0, row)
  {
    var routing := RoutingOf(pre, parse, rec).value;
    var sec0 := SectionOfRow(pre, re, table0, routing, cfg0, row0);
    assert FoundIn(cfg, cfg0.nodes, sec0);
    var sec :| sec in cfg.groups && Interchangeable(cfg0.nodes, sec0, cfg.nodes, sec);
    assert MeansNeeded(re, table, routing, cfg.nodes, sec);
    var other :| other in table && C.Needed(routing, other.name) && C.SectionMeans(re, cfg.nodes, sec, other);
    SameNameSameRow(s, table, other, row);
    forall link ensures FeedsLink(re, row0, link) <==> FeedsLink(re, row, link) {
      assert C.Resolves(cfg0.nodes, sec0.filter, link) <==> C.Resolves(cfg.nodes, sec.filter, link);
    }
  }

  lemma LinksKeptIf(re: Regexp, parse: Parser, pre: Store, table0: seq<GroupRow>, rec: Recording, cfg0: C.Emitted,
                    s: Store, table: seq<GroupRow>, cfg: C.Emitted)
    requires Settled(re, parse, pre, table0, rec, cfg0, s, table)
    requires Faithful(re, table, RoutingOf(pre, parse, rec).value, cfg) && Equivalent(cfg0, cfg)
    ensures LinksKept(re, pre, rec, s)
  {
    var routing := RoutingOf(pre, parse, rec).value;
    forall id | id in rec.groups && id in pre.groups.rows && id in s.groups.rows
      ensures SameLinks(re, pre, pre.groups.rows[id], s, s.groups.rows[id])
    {
      assert NeededId(table0, routing, id);
      var row0 :| row0 in table0 && row0.id == id && C.Needed(routing, row0.name);
      var row := RowAgain(re, parse, pre, table0, rec, cfg0, s, table, row0);
      FoundFeeds(re, parse, pre, table0, rec, cfg0, s, table, cfg, row0, row);
    }
  }

  /** Any faithful compilation of the present table is equivalent to what is loaded, if and only if no
      group has taken the name of a used preset since and every recorded group has kept its links. */
  lemma EquivalentExactly(re: Regexp, parse: Parser, pre: Store, table0: seq<GroupRow>, rec: Recording, cfg0: C.Emitted,
                          s: Store, table: seq<GroupRow>, cfg: C.Emitted)
    requires Settled(re, parse, pre, table0, rec, cfg0, s, table)
    requires Faithful(re, table, RoutingOf(pre, parse, rec).value, cfg)
    ensures Equivalent(cfg0, cfg) <==>
            NoNewPreset(table, RoutingOf(pre, parse, rec).value, rec) && LinksKept(re, pre, rec, s)
  {
    if NoNewPreset(table, RoutingOf(pre, parse, rec).value, rec) && LinksKept(re, pre, rec, s) {
      forall sec0 | sec0 in cfg0.groups ensures FoundIn(cfg, cfg0.nodes, sec0) {
        SectionAgain(re, parse, pre, table0, rec, cfg0, s, table, cfg, sec0);
      }
      forall sec | sec in cfg.groups ensures FoundIn(cfg0, cfg.nodes, sec) {
        SectionBefore(re, parse, pre, table0, rec, cfg0, s, table, cfg, sec);
      }
    } else if Equivalent(cfg0, cfg) {
      NoNewPresetIf(re, parse, pre, table0, rec, cfg0, s, table, cfg);
      LinksKeptIf(re, parse, pre, table0, rec, cfg0, s, table, cfg);
    }
  }

  /** Every load of the trace up to `k` was a run, with this table and this config. */
  ghost predicate LoadsAreRuns(re: Regexp, parse: Parser, ss: seq<Store>, es: seq<Event>, k: nat,
                               tables: nat -> seq<GroupRow>, cfgs: nat -> C.Emitted)
    requires k <= |es| < |ss|
  {
    forall i: nat :: i < k && es[i].Load? ==>
      TableOf(ss[i], tables(i)) && RunOf(ss[i], re, parse, tables(i), es[i].r, cfgs(i))
  }

  /** What a run on `s` would load, against `cfg0`, which the run on `pre` loaded: it would not fail before the
      reload and would load an equivalent config, if no group has taken the name of a used preset since
      and every recorded group has kept its links; else no faithful compilation is equivalent. */
  ghost predicate RunsAlikeExactly(re: Regexp, parse: Parser, pre: Store, rec: Recording, cfg0: C.Emitted, s: Store,
                                   table: seq<GroupRow>, routing: C.Routing)
  {
    var same := NoNewPreset(table, routing, rec) && LinksKept(re, pre, rec, s);
    && RoutingOf(s, parse, rec) == Some(routing)
    && (same ==> Runnable(s, re, parse, table, rec.config, rec.dns, rec.routing))
    && forall cfg :: Faithful(re, table, routing, cfg) ==> (Equivalent(cfg0, cfg) <==> same)
  }

  lemma SettledRunsAlike(re: Regexp, parse: Parser, pre: Store, table0: seq<GroupRow>, rec: Recording, cfg0: C.Emitted,
                         s: Store, table: seq<GroupRow>) returns (routing: C.Routing)
    requires Settled(re, parse, pre, table0, rec, cfg0, s, table)
    ensures RunsAlikeExactly(re, parse, pre, rec, cfg0, s, table, routing)
  {
    routing := RoutingOf(pre, parse, rec).value;
    SameRouting(parse, pre, rec, s);
    if NoNewPreset(table, routing, rec) && LinksKept(re, pre, rec, s) {
      BuildsAgain(re, parse, pre, table0, rec, cfg0, s, table);
    }
    forall cfg | Faithful(re, table, routing, cfg)
      ensures Equivalent(cfg0, cfg) <==> NoNewPreset(table, routing, rec) && LinksKept(re, pre, rec, s)
    {
      EquivalentExactly(re, parse, pre, table0, rec, cfg0, s, table, cfg);
    }
  }

  /** Over all traces, with mutations used as documented or not: while `Modified` says no, a run would load
      what the last run loaded, exactly under that condition. With mutations used as documented, every
      recorded group has kept its links if and only if in every one the updates of nodes since the run
      cancel out. Without such updates it has. */
  lemma UnmodifiedRunsAlike(re: Regexp, parse: Parser, dial: Dialer, ss: seq<Store>, es: seq<Event>, k: nat,
                            tables: nat -> seq<GroupRow>, cfgs: nat -> C.Emitted, table: seq<GroupRow>)
    returns (j: nat, routing: C.Routing)
    requires Trace(dial, ss, es) && k <= |es| && ss[k].sys.running && Unmodified(ss[k])
    requires LoadsAreRuns(re, parse, ss, es, k, tables, cfgs) && TableOf(ss[k], table)
    ensures LastLoad(es, j, k) && RunsAlikeExactly(re, parse, ss[j], es[j].r, cfgs(j), ss[k], table, routing)
    ensures var edited := EditedSince(es, j, k);
            TraceDocumented(ss, es) ==>
              && (LinksKept(re, ss[j], es[j].r, ss[k]) <==> AllCancel(re, ss[j], es[j].r, ss[k], edited))
              && (edited == {} ==> LinksKept(re, ss[j], es[j].r, ss[k]))
  {
    j := UnmodifiedMeansSame(dial, ss, es, k);
    TraceSchema(dial, ss, es, j);
    TraceSchema(dial, ss, es, k);
    routing := SettledRunsAlike(re, parse, ss[j], tables(j), es[j].r, cfgs(j), ss[k], table);
    if TraceDocumented(ss, es) {
      LinksKeptExactly(re, ss[j], es[j].r, ss[k], EditedSince(es, j, k));
    }
  }
}

/** The change detector and the combined system: while the store says "running" and `Modified` says no, the
    config that is being served against the one that a run would load. And the store after a restart. */
module ServedConfig {
  import opened Wrappers
  import opened Database
  import opened Tables
  import opened GroupMembers
  import opened Store
  import opened StoreHistory
  import opened ChangeDetector
  import opened ModifiedSoundness
  import opened Preloading
  import opened ConfigRun
  import opened RunAgain
  import C = ConfigCompiler
  import R = ReloadProtocol
  import W = RunningTruth
  import U = Unnoticed

  /** The group and node sections of a config; the protocol looks at other parts of it. */
  type Sections = R.Conf -> C.Emitted

  ghost predicate RunConf(s: Store, re: Regexp, parse: Parser, rec: Recording, cfg: C.Emitted)
  {
    exists table :: TableOf(s, table) && RunOf(s, re, parse, table, rec, cfg)
  }

  /** The compiler is that of config.Run. */
  ghost predicate CompilesRuns(comp: W.Compiler, re: Regexp, parse: Parser, sections: Sections)
  {
    forall s, rec, conf :: comp(s, rec, conf) ==> RunConf(s, re, parse, rec, sections(conf))
  }

  // ---- Since the last commit of a call ----

  /** Only mutations came between the call's record and the store. */
  ghost predicate Descends(call: W.Call, s: Store)
  {
    call.plan.LoadOf? && var (pre, rec) := (call.snapshot, call.plan.rec);
    && StoreInv(pre) && SchemaInv(pre) && Recordable(pre, rec)
    && Since(Recorded(pre, rec), s) && GroupsKept(Recorded(pre, rec), s)
  }

  ghost predicate HeritageInv(w: W.World)
  {
    && StoreInv(w.store) && SchemaInv(w.store)
    && (w.said.Some? && w.store.sys.running ==>
        w.said.value < |w.calls| && Descends(w.calls[w.said.value], w.store))
  }

  lemma RecordedSelf(s: Store, rec: Recording)
    requires StoreInv(s) && SchemaInv(s) && Recordable(s, rec)
    ensures var s' := Recorded(s, rec); StoreInv(s') && SchemaInv(s') && Since(s', s') && GroupsKept(s', s')
  {
    RecordedInv(s, rec);
  }

  lemma CommitHeritage(t: W.Setting, w: W.World, i: nat)
    requires W.WorldInv(t, w) && HeritageInv(w) && W.Enabled(t, w, W.Commit(i))
    ensures HeritageInv(W.Step(t, w, W.Commit(i)))
  {
    assert W.ReadGood(t, w, i);
    match w.calls[i].plan
    case LoadOf(rec) => RecordedSelf(w.store, rec);
    case Dry => Stopped(t, w);
  }

  lemma Stopped(t: W.Setting, w: W.World)
    requires StoreInv(w.store) && SchemaInv(w.store)
    ensures var s := w.store.(sys := w.store.sys.(running := false)); StoreInv(s) && SchemaInv(s)
  {
    var s := w.store.(sys := w.store.sys.(running := false));
    assert Apply(t.dial, w.store, Stop) == s;
    StoreInvStep(t.dial, w.store, Stop);
    SchemaInvStep(t.dial, w.store, Stop);
  }

  lemma DescendsFurther(t: W.Setting, call: W.Call, s: Store, m: Mutation)
    requires StoreInv(s) && Descends(call, s)
    ensures Descends(call, Apply(t.dial, s, m))
  {
    var (s0, s') := (Recorded(call.snapshot, call.plan.rec), Apply(t.dial, s, m));
    RecordedInv(call.snapshot, call.plan.rec);
    SinceStep(t.dial, s, m);
    GroupsKeptStep(t.dial, s, m);
    SinceTransitive(s0, s, s');
    GroupsKeptTransitive(s0, s, s');
  }

  lemma MutateHeritage(t: W.Setting, w: W.World, m: Mutation)
    requires HeritageInv(w) && W.Enabled(t, w, W.Mutate(m))
    ensures HeritageInv(W.Step(t, w, W.Mutate(m)))
  {
    StoreInvStep(t.dial, w.store, m);
    SchemaInvStep(t.dial, w.store, m);
    if w.said.Some? && Apply(t.dial, w.store, m).sys.running {
      SinceStep(t.dial, w.store, m);
      DescendsFurther(t, w.calls[w.said.value], w.store, m);
    }
  }

  lemma OtherHeritage(t: W.Setting, w: W.World, e: W.Event)
    requires W.WorldInv(t, w) && HeritageInv(w) && W.Enabled(t, w, e) && !e.Commit? && !e.Mutate?
    ensures HeritageInv(W.Step(t, w, e))
  {
    W.SaidCallKept(t, w, e);
  }

  lemma HeritageStep(t: W.Setting, w: W.World, e: W.Event)
    requires W.WorldInv(t, w) && HeritageInv(w) && W.Enabled(t, w, e)
    ensures HeritageInv(W.Step(t, w, e))
  {
    match e
    case Commit(i) => CommitHeritage(t, w, i);
    case Mutate(m) => MutateHeritage(t, w, m);
    case _ => OtherHeritage(t, w, e);
  }

  lemma {:induction false} HeritageRun(t: W.Setting, ws: seq<W.World>, es: seq<W.Event>, k: nat)
    requires W.Run(t, ws, es) && k <= |es| && StoreInv(ws[0].store) && SchemaInv(ws[0].store)
    ensures HeritageInv(ws[k])
  {
    if k > 0 {
      HeritageRun(t, ws, es, k - 1);
      W.RunInv(t, ws, es, k - 1);
      HeritageStep(t, ws[k - 1], es[k - 1]);
    }
  }

  // ---- What is served and what a run would load ----

  lemma DescendantSettled(re: Regexp, parse: Parser, call: W.Call, cfg0: C.Emitted, s: Store, table: seq<GroupRow>)
    returns (table0: seq<GroupRow>)
    requires Descends(call, s) && StoreInv(s) && SchemaInv(s) && s.sys.running && Unmodified(s) && TableOf(s, table)
    requires RunConf(call.snapshot, re, parse, call.plan.rec, cfg0)
    ensures Settled(re, parse, call.snapshot, table0, call.plan.rec, cfg0, s, table)
  {
    var (pre, rec) := (call.snapshot, call.plan.rec);
    table0 :| TableOf(pre, table0) && RunOf(pre, re, parse, table0, rec, cfg0);
    GroupsLoaded(pre, rec, s);
  }

  /** In every run of the combined system, when the loop is up, no transaction is open, the call loaded last
      was not lost and a call was committed: while `Modified` says no, the config being served is
      equivalent to any that a run would load now, if and only if no group has taken the name of a used
      preset since it was compiled and every recorded group has kept its links. */
  lemma ServedRunsAlike(t: W.Setting, re: Regexp, parse: Parser, sections: Sections, ws: seq<W.World>, es: seq<W.Event>,
                        k: nat, table: seq<GroupRow>)
    returns (i: nat, routing: C.Routing)
    requires W.Run(t, ws, es) && StoreInv(ws[0].store) && SchemaInv(ws[0].store)
    requires CompilesRuns(t.comp, re, parse, sections)
    requires k <= |es| && R.Up(ws[k].p) && W.Settled(ws[k]) && !W.LastLost(ws[k])
    requires ws[k].said.Some? && ws[k].store.sys.running && Unmodified(ws[k].store) && TableOf(ws[k].store, table)
    ensures ws[k].said == Some(i) && i < |ws[k].calls| && ws[k].calls[i].plan.LoadOf?
    ensures RunsAlikeExactly(re, parse, ws[k].calls[i].snapshot, ws[k].calls[i].plan.rec,
                             sections(W.Served(ws[k])), ws[k].store, table, routing)
  {
    W.StoreTellsTruth(t, ws, es, k);
    HeritageRun(t, ws, es, k);
    i := ws[k].said.value;
    var call, s := ws[k].calls[i], ws[k].store;
    assert t.comp(call.snapshot, call.plan.rec, call.conf);
    var cfg0 := sections(call.conf);
    var table0 := DescendantSettled(re, parse, call, cfg0, s, table);
    routing := SettledRunsAlike(re, parse, call.snapshot, table0, call.plan.rec, cfg0, s, table);
  }

  // ---- After a restart ----

  const UNSELECTED: Store := U.LOADED.(configs := Table(map[], 2))

  lemma Unselects()
    ensures Apply(U.Dial, U.LOADED, RemoveSection(Global, 1)) == UNSELECTED
  {
    assert Delete(U.ON, {1}).rows == map[];
  }

  /** A finding: the selected config is removed while it runs, then the daemon is restarted. The store says
      "running", no config is selected, so restoreRunningState ends with an error and leaves it so
      (`ConfigRun.RestoreRunningState`), and what is served is the initial config. */
  lemma RestartUntold(t: W.Setting, initial: R.Conf) returns (ss: seq<Store>, es: seq<Event>, w: W.World)
    ensures Trace(U.Dial, ss, es) && |es| == 11 && es[9].Load? && es[10] == Mutate(RemoveSection(Global, 1))
    ensures ss[11].sys.running && NothingSelected(ss[11], Global)
    ensures w.store == ss[11] && W.Run(t, [w], []) && R.Up(w.p) && W.Settled(w) && !W.LastLost(w)
    ensures W.Served(w) == initial && !W.Truthful(t, w)
  {
    ss, es := U.Ran();
    Unselects();
    var e := Mutate(RemoveSection(Global, 1));
    U.TraceExtends(ss, es, e, UNSELECTED);
    ss, es := ss + [UNSELECTED], es + [e];
    w := W.Fresh(initial, UNSELECTED);
  }
}

/** What `Modified` means over whole histories: "unmodified" implies that nothing that a run would
    load has changed, and a modification stays visible until the next run. */
module ModifiedSoundness {
  import opened Wrappers
  import opened Tables
  import opened NodeImport
  import opened SubscriptionRefresh
  import opened Store
  import opened StoreHistory
  import opened ChangeDetector

  /** A store `s` in which the proxy still runs what the run recorded on `pre`, after any mutations. */
  ghost predicate RunningSince(pre: Store, r: Recording, s: Store)
  {
    && StoreInv(pre) && Recordable(pre, r) && StoreInv(s)
    && Since(Recorded(pre, r), s) && s.sys.running
  }

  /** A recorded group that was removed or bumped since. */
  ghost predicate GroupDirty(pre: Store, s: Store, id: nat)
  {
    id !in s.groups.rows || VersionOf(s.groups, id) > VersionOf(pre.groups, id)
  }

  /** A recorded section that was removed or bumped since. */
  ghost predicate SectionDirty(s: Store, k: Kind)
  {
    Running(s, k).Some? && (Running(s, k).value.id !in Sections(s, k).rows ||
      Sections(s, k).rows[Running(s, k).value.id].version > Running(s, k).value.version)
  }

  ghost predicate AnyGroupDirty(pre: Store, r: Recording, s: Store)
  {
    exists g :: g in r.groups && GroupDirty(pre, s, g)
  }

  ghost predicate Dirty(pre: Store, r: Recording, s: Store)
  {
    (exists k :: SectionDirty(s, k)) || AnyGroupDirty(pre, r, s)
  }

  lemma RunningRef(pre: Store, r: Recording, s: Store, k: Kind)
    requires RunningSince(pre, r, s)
    ensures Running(s, k) == Some(RefTo(pre, k, Pick(r, k)))
    ensures Pick(r, k) in Sections(s, k).rows ==>
              SectionSince(Sections(pre, k).rows[Pick(r, k)], Sections(s, k).rows[Pick(r, k)])
  {
    RecordedRef(pre, r, k);
    assert SectionsSince(Sections(Recorded(pre, r), k), Sections(s, k));
  }

  /** The running groups are those of the recorded ones that still exist. */
  lemma RunningGroups(pre: Store, r: Recording, s: Store, id: nat)
    requires RunningSince(pre, r, s)
    ensures id in RunningIds(s.groups) <==> id in r.groups && id in s.groups.rows
    ensures id in r.groups && id in s.groups.rows ==> VersionOf(pre.groups, id) <= VersionOf(s.groups, id)
  {
    var s0 := Recorded(pre, r);
    assert KeysBelow(pre.groups);
    if id in s.groups.rows && id in s0.groups.rows {
      assert s0.groups.rows[id].running == (id in r.groups);
    }
  }

  lemma GroupsCurrentExactly(pre: Store, r: Recording, s: Store, ids: seq<nat>)
    requires RunningSince(pre, r, s) && Lists(ids, RunningIds(s.groups))
    ensures GroupsCurrent(s, ids) <==> r.groups != [] && forall id :: id in r.groups ==> !GroupDirty(pre, s, id)
  {
    assert s.sys == Recorded(pre, r).sys;
    forall id
      ensures id in ids <==> id in r.groups && id in s.groups.rows
      ensures id in r.groups && id in s.groups.rows ==> VersionOf(pre.groups, id) <= VersionOf(s.groups, id)
    {
      RunningGroups(pre, r, s, id);
    }
    if forall id :: id in r.groups ==> id in s.groups.rows {
      SameElements(ids, r.groups);
      SameFingerprints(s.groups, ids, r.groups);
      EqualSums(pre.groups, s.groups, r.groups);
    } else {
      if IdString(ids) == IdString(r.groups) { IdStringInjective(ids, r.groups); }
    }
  }

  lemma RefExactly(pre: Store, r: Recording, s: Store, k: Kind)
    requires RunningSince(pre, r, s)
    ensures RefCurrent(s, k) <==> IsSelected(s, k, Pick(r, k)) && !SectionDirty(s, k)
  {
    RunningRef(pre, r, s, k);
  }

  /** Exactly when `Modified` says no: the selection is the recorded one, at least one group was
      recorded, and nothing recorded was removed or bumped. */
  lemma ModifiedExactly(pre: Store, r: Recording, s: Store)
    requires RunningSince(pre, r, s)
    ensures Unmodified(s) <==> (forall k :: IsSelected(s, k, Pick(r, k))) && r.groups != [] && !Dirty(pre, r, s)
  {
    var ids := ListAny(RunningIds(s.groups));
    GroupsCurrentExactly(pre, r, s, ids);
    UnmodifiedBy(s, ids);
    forall k ensures RefCurrent(s, k) <==> IsSelected(s, k, Pick(r, k)) && !SectionDirty(s, k) {
      RefExactly(pre, r, s, k);
    }
  }

  lemma {:induction false} ListAny(s: set<nat>) returns (ids: seq<nat>)
    ensures Lists(ids, s)
    decreases s
  {
    ids := [];
    if s != {} {
      var x :| x in s;
      var rest := ListAny(s - {x});
      ids := rest + [x];
    }
  }

  // ---- Soundness ----

  /** Fingerprint soundness: if `Modified` says no, then each selected section is the recorded one in
      version and text, and the running groups are the recorded ones, each in its recorded version. */
  lemma FingerprintSound(pre: Store, r: Recording, s: Store)
    requires RunningSince(pre, r, s) && Unmodified(s)
    ensures forall k :: IsSelected(s, k, Pick(r, k)) && SameSection(pre, s, k, Pick(r, k))
    ensures forall id :: id in RunningIds(s.groups) <==> id in r.groups
    ensures forall id :: id in r.groups ==> id in s.groups.rows && VersionOf(s.groups, id) == VersionOf(pre.groups, id)
  {
    ModifiedExactly(pre, r, s);
    forall k ensures SameSection(pre, s, k, Pick(r, k)) {
      RunningRef(pre, r, s, k);
      assert IsSelected(s, k, Pick(r, k)) && !SectionDirty(s, k);
    }
    forall id
      ensures id in RunningIds(s.groups) <==> id in r.groups
      ensures id in r.groups ==> id in s.groups.rows && VersionOf(s.groups, id) == VersionOf(pre.groups, id)
    {
      RunningGroups(pre, r, s, id);
      assert id in r.groups ==> !GroupDirty(pre, s, id);
    }
  }

  ghost predicate SameSection(pre: Store, s: Store, k: Kind, id: nat)
  {
    && id in Sections(pre, k).rows && id in Sections(s, k).rows
    && Sections(s, k).rows[id].version == Sections(pre, k).rows[id].version
    && Sections(s, k).rows[id].text == Sections(pre, k).rows[id].text
  }

  /** Content soundness: then every recorded group still has its policy, bindings and members. */
  lemma GroupSound(pre: Store, r: Recording, s: Store, id: nat)
    requires RunningSince(pre, r, s) && Unmodified(s) && GroupsKept(Recorded(pre, r), s) && id in r.groups
    ensures id in pre.groups.rows && id in s.groups.rows && SameGroup(pre.groups.rows[id], s.groups.rows[id])
  {
    FingerprintSound(pre, r, s);
    assert Unbumped(Recorded(pre, r), s, id);
  }

  lemma RecordedContent(pre: Store, r: Recording, id: nat)
    requires Recordable(pre, r) && id in pre.groups.rows
    ensures var s := Recorded(pre, r);
            id in s.groups.rows && SameContent(pre, pre.groups.rows[id], s, s.groups.rows[id], {})
  {
  }

  /** If moreover all mutations were used as documented, it still draws on the nodes that the run compiled,
      which have kept link and name unless updateNode was applied to them. */
  lemma ContentSound(pre: Store, r: Recording, s: Store, edited: set<nat>, id: nat)
    requires RunningSince(pre, r, s) && Unmodified(s) && ContentSince(Recorded(pre, r), s, edited)
    requires id in r.groups
    ensures id in s.groups.rows && SameContent(pre, pre.groups.rows[id], s, s.groups.rows[id], edited)
  {
    FingerprintSound(pre, r, s);
    var s0 := Recorded(pre, r);
    assert Unbumped(s0, s, id);
    RecordedContent(pre, r, id);
    SameContentTransitive(pre, pre.groups.rows[id], s0, s0.groups.rows[id], s, s.groups.rows[id], {}, edited);
    assert {} + edited == edited;
  }

  // ---- Exactly what makes it say yes ----

  /** The mutation updates or removes the section. */
  ghost predicate TouchesSection(s: Store, m: Mutation, k: Kind, id: nat)
  {
    id in Sections(s, k).rows && ((m.UpdateSection? && m.kind == k && m.id == id) || m == RemoveSection(k, id))
  }

  /** The mutation changes, removes or refreshes something that the running group consists of. */
  ghost predicate TouchesGroup(dial: Dialer, s: Store, m: Mutation, g: nat)
    requires g in s.groups.rows
  {
    match m
    case RemoveGroup(id) => id == g
    case AddSubscriptions(id, _, _) => id == g
    case DelSubscriptions(id, _) => id == g
    case AddNodes(id, _) => id == g
    case DelNodes(id, _) => id == g
    case SetPolicy(id, _, _) => id == g
    case RemoveNodes(nodes) => !(s.groups.rows[g].members !! nodes)
    case UpdateSubscription(id, _) => Apply(dial, s, m) != s && id in s.groups.rows[g].bindings
    case UpdateSubscriptionLink(id, _) => id in s.subs.rows && id in s.groups.rows[g].bindings
    case RemoveSubscriptions(subs) =>
      !(s.groups.rows[g].bindings.Keys !! subs) || !(s.groups.rows[g].members !! OfSubs(s.nodes, subs))
    case _ => false
  }

  /** A group that was there is gone or bumped exactly if the mutation touches it. */
  lemma TouchBumps(dial: Dialer, s: Store, m: Mutation, g: nat)
    requires s.sys.running && g in s.groups.rows && s.groups.rows[g].running && g < s.groups.next
    ensures var s' := Apply(dial, s, m);
            if TouchesGroup(dial, s, m, g) then g in s'.groups.rows ==> VersionOf(s'.groups, g) > VersionOf(s.groups, g)
            else g in s'.groups.rows && VersionOf(s'.groups, g) == VersionOf(s.groups, g)
  {
  }

  ghost predicate GroupHit(dial: Dialer, s: Store, r: Recording, m: Mutation, g: nat)
  {
    g in r.groups && g in s.groups.rows && TouchesGroup(dial, s, m, g)
  }

  /** The mutation concerns something that the run recorded. */
  ghost predicate Touches(dial: Dialer, s: Store, r: Recording, m: Mutation)
  {
    || (exists k :: TouchesSection(s, m, k, Pick(r, k)))
    || (exists g :: GroupHit(dial, s, r, m, g))
  }

  lemma RefsKept(dial: Dialer, s: Store, m: Mutation, k: Kind)
    ensures Running(Apply(dial, s, m), k) == Running(s, k)
  {
  }

  lemma SectionMutated(dial: Dialer, s: Store, m: Mutation, k: Kind, ref: Ref)
    requires ConcernsSection(m, k) && Running(s, k) == Some(ref) && Running(Apply(dial, s, m), k) == Some(ref)
    requires ref.id < Sections(s, k).next
    requires ref.id in Sections(s, k).rows ==> ref.version <= Sections(s, k).rows[ref.id].version
    ensures SectionDirty(Apply(dial, s, m), k) <==> SectionDirty(s, k) || TouchesSection(s, m, k, ref.id)
  {
  }

  /** The same for sections. */
  lemma SectionTouched(dial: Dialer, pre: Store, r: Recording, s: Store, m: Mutation, k: Kind)
    requires RunningSince(pre, r, s)
    ensures SectionDirty(Apply(dial, s, m), k) <==> SectionDirty(s, k) || TouchesSection(s, m, k, Pick(r, k))
  {
    RunningRef(pre, r, s, k);
    RefsKept(dial, s, m, k);
    if ConcernsSection(m, k) {
      RecordedBelow(pre, r, s, k);
      SectionMutated(dial, s, m, k, RefTo(pre, k, Pick(r, k)));
    } else {
      OtherSections(dial, s, m, k);
    }
  }

  /** Ids of recorded rows are never given out again. */
  lemma RecordedBelow(pre: Store, r: Recording, s: Store, k: Kind)
    requires RunningSince(pre, r, s)
    ensures Pick(r, k) < Sections(s, k).next
  {
    assert IsSelected(pre, k, Pick(r, k)) && KeysBelow(Sections(pre, k));
    RecordedRef(pre, r, k);
    assert SectionsSince(Sections(Recorded(pre, r), k), Sections(s, k));
  }

  lemma GroupTouched(dial: Dialer, pre: Store, r: Recording, s: Store, m: Mutation, g: nat)
    requires RunningSince(pre, r, s) && g in r.groups
    ensures GroupDirty(pre, Apply(dial, s, m), g) <==>
            GroupDirty(pre, s, g) || (g in s.groups.rows && TouchesGroup(dial, s, m, g))
  {
    assert g in pre.groups.rows && KeysBelow(pre.groups) && g < s.groups.next;
    RunningGroups(pre, r, s, g);
    if g in s.groups.rows {
      TouchBumps(dial, s, m, g);
    } else if g in Apply(dial, s, m).groups.rows {
      NewGroup(dial, s, m, g);
    }
  }

  lemma SectionsTouched(dial: Dialer, pre: Store, r: Recording, s: Store, m: Mutation, s': Store)
    requires RunningSince(pre, r, s) && s' == Apply(dial, s, m)
    ensures (exists k :: SectionDirty(s', k)) <==>
            (exists k :: SectionDirty(s, k)) || (exists k :: TouchesSection(s, m, k, Pick(r, k)))
  {
    forall k ensures SectionDirty(s', k) <==> SectionDirty(s, k) || TouchesSection(s, m, k, Pick(r, k)) {
      SectionTouched(dial, pre, r, s, m, k);
    }
  }

  lemma GroupsTouched(dial: Dialer, pre: Store, r: Recording, s: Store, m: Mutation, s': Store)
    requires RunningSince(pre, r, s) && s' == Apply(dial, s, m)
    ensures AnyGroupDirty(pre, r, s') <==> AnyGroupDirty(pre, r, s) || (exists g :: GroupHit(dial, s, r, m, g))
  {
    forall g | g in r.groups ensures GroupDirty(pre, s', g) <==> GroupDirty(pre, s, g) || GroupHit(dial, s, r, m, g) {
      GroupTouched(dial, pre, r, s, m, g);
    }
    if g :| GroupHit(dial, s, r, m, g) {
      assert GroupDirty(pre, s', g);
    }
  }

  /** A mutation is noticed exactly if it touches something recorded, or something was dirty before. */
  lemma TouchDirties(dial: Dialer, pre: Store, r: Recording, s: Store, m: Mutation)
    requires RunningSince(pre, r, s)
    ensures Dirty(pre, r, Apply(dial, s, m)) <==> Dirty(pre, r, s) || Touches(dial, s, r, m)
  {
    var s' := Apply(dial, s, m);
    SectionsTouched(dial, pre, r, s, m, s');
    GroupsTouched(dial, pre, r, s, m, s');
  }

  lemma {:induction false} HistoryRunning(dial: Dialer, pre: Store, r: Recording, ss: seq<Store>, ms: seq<Mutation>,
                                          k: nat)
    requires StoreInv(pre) && Recordable(pre, r) && History(dial, ss, ms) && ss[0] == Recorded(pre, r)
    requires k <= |ms| && ss[k].sys.running
    ensures RunningSince(pre, r, ss[k]) && GroupsKept(ss[0], ss[k])
  {
    RecordedInv(pre, r);
    HistorySince(dial, ss, ms, k);
  }

  lemma RunningEarlier(dial: Dialer, ss: seq<Store>, ms: seq<Mutation>, k: nat)
    requires History(dial, ss, ms) && StoreInv(ss[0]) && k < |ms| && ss[k + 1].sys.running
    ensures ss[k].sys.running && ss[k + 1] == Apply(dial, ss[k], ms[k])
  {
    HistorySince(dial, ss, ms, k);
    assert MutatesAt(dial, ss, ms, k);
    SinceStep(dial, ss[k], ms[k]);
  }

  /** Some earlier mutation of the history touched something recorded. */
  ghost predicate TouchedBy(dial: Dialer, r: Recording, ss: seq<Store>, ms: seq<Mutation>, k: nat)
    requires k <= |ms| < |ss|
  {
    exists j :: 0 <= j < k && Touches(dial, ss[j], r, ms[j])
  }

  lemma TouchedNext(dial: Dialer, r: Recording, ss: seq<Store>, ms: seq<Mutation>, k: nat)
    requires k < |ms| < |ss|
    ensures TouchedBy(dial, r, ss, ms, k + 1) <==> TouchedBy(dial, r, ss, ms, k) || Touches(dial, ss[k], r, ms[k])
  {
  }

  lemma RecordedClean(pre: Store, r: Recording)
    requires Recordable(pre, r)
    ensures !Dirty(pre, r, Recorded(pre, r))
  {
    forall k ensures !SectionDirty(Recorded(pre, r), k) {
      assert IsSelected(pre, k, Pick(r, k));
      RecordedRef(pre, r, k);
    }
  }

  lemma {:induction false} DirtyExactly(dial: Dialer, pre: Store, r: Recording, ss: seq<Store>, ms: seq<Mutation>,
                                        k: nat)
    requires StoreInv(pre) && Recordable(pre, r) && History(dial, ss, ms) && ss[0] == Recorded(pre, r)
    requires k <= |ms| && ss[k].sys.running
    ensures Dirty(pre, r, ss[k]) <==> TouchedBy(dial, r, ss, ms, k)
  {
    RecordedInv(pre, r);
    if k == 0 {
      RecordedClean(pre, r);
    } else {
      RunningEarlier(dial, ss, ms, k - 1);
      DirtyExactly(dial, pre, r, ss, ms, k - 1);
      HistoryRunning(dial, pre, r, ss, ms, k - 1);
      TouchDirties(dial, pre, r, ss[k - 1], ms[k - 1]);
      TouchedNext(dial, r, ss, ms, k - 1);
    }
  }

  /** After a run and any mutations, `Modified` says no if and only if the recorded rows are selected,
      some group was recorded, and none of the mutations touched anything recorded. So a modification
      sticks: once something recorded was touched, it says yes until the next run. */
  lemma ModifiedSinceRun(dial: Dialer, pre: Store, r: Recording, ss: seq<Store>, ms: seq<Mutation>, k: nat)
    requires StoreInv(pre) && Recordable(pre, r) && History(dial, ss, ms) && ss[0] == Recorded(pre, r)
    requires k <= |ms| && ss[k].sys.running
    ensures Unmodified(ss[k]) <==>
            (forall kind :: IsSelected(ss[k], kind, Pick(r, kind))) && r.groups != [] && !TouchedBy(dial, r, ss, ms, k)
  {
    HistoryRunning(dial, pre, r, ss, ms, k);
    ModifiedExactly(pre, r, ss[k]);
    DirtyExactly(dial, pre, r, ss, ms, k);
  }

  /** Changing a group that is not running never changes the answer. */
  lemma OtherGroupsSilent(dial: Dialer, s: Store, m: Mutation)
    requires m.AddSubscriptions? || m.DelSubscriptions? || m.AddNodes? || m.DelNodes? || m.SetPolicy? || m.RemoveGroup?
    requires m.id in s.groups.rows && !s.groups.rows[m.id].running
    ensures Unmodified(Apply(dial, s, m)) <==> Unmodified(s)
  {
    var s' := Apply(dial, s, m);
    assert RunningIds(s'.groups) == RunningIds(s.groups);
    forall k ensures RefCurrent(s', k) <==> RefCurrent(s, k) {
      assert Sections(s', k) == Sections(s, k) && Running(s', k) == Running(s, k);
      assert forall id :: IsSelected(s', k, id) <==> IsSelected(s, k, id);
    }
    var ids := ListAny(RunningIds(s.groups));
    SameSum(s.groups, s'.groups, ids);
    UnmodifiedBy(s, ids);
    UnmodifiedBy(s', ids);
  }

  /** Nor does creating a group, under whatever name. */
  lemma NewGroupSilent(dial: Dialer, s: Store, m: Mutation)
    requires m.CreateGroup? && KeysBelow(s.groups)
    ensures Unmodified(Apply(dial, s, m)) <==> Unmodified(s)
  {
    var s' := Apply(dial, s, m);
    assert RunningIds(s'.groups) == RunningIds(s.groups);
    forall k ensures RefCurrent(s', k) <==> RefCurrent(s, k) {
      assert Sections(s', k) == Sections(s, k) && Running(s', k) == Running(s, k);
      assert forall id :: IsSelected(s', k, id) <==> IsSelected(s, k, id);
    }
    var ids := ListAny(RunningIds(s.groups));
    SameSum(s.groups, s'.groups, ids);
    UnmodifiedBy(s, ids);
    UnmodifiedBy(s', ids);
  }

  lemma {:induction false} SameSum(t: Table<Group>, t': Table<Group>, ids: seq<nat>)
    requires forall id :: id in ids ==> VersionOf(t, id) == VersionOf(t', id)
    ensures VersionSum(t, ids) == VersionSum(t', ids)
  {
    if ids != [] { SameSum(t, t', ids[..|ids| - 1]); }
  }

  // ---- What Modified does not see ----

  /** `Modified` does not look at nodes. */
  lemma NodesUnseen(s: Store, s': Store)
    requires s' == s.(nodes := s'.nodes)
    ensures Unmodified(s') <==> Unmodified(s)
  {
    forall k ensures RefCurrent(s', k) <==> RefCurrent(s, k) {
      assert Sections(s', k) == Sections(s, k) && Running(s', k) == Running(s, k);
      assert forall id :: IsSelected(s', k, id) <==> IsSelected(s, k, id);
    }
    var ids := ListAny(RunningIds(s.groups));
    UnmodifiedBy(s, ids);
    UnmodifiedBy(s', ids);
  }

  lemma NodeEdit(dial: Dialer, s: Store, m: Mutation)
    requires m.UpdateNode? || m.TagNode?
    ensures var s' := Apply(dial, s, m);
            && s' == s.(nodes := s'.nodes)
            && (s'.nodes != s.nodes ==>
                  m.id in s.nodes.rows && m.id in s'.nodes.rows && s'.nodes.rows[m.id] != s.nodes.rows[m.id]
                  && s'.nodes.rows == s.nodes.rows[m.id := s'.nodes.rows[m.id]]
                  && s'.nodes.rows[m.id].subscription == s.nodes.rows[m.id].subscription)
  {
  }

  // ---- Traces: mutations and runs in any order from the empty database ----

  datatype Event = Mutate(m: Mutation) | Load(r: Recording)

  const EMPTY: Store := Store(Table(map[], 1), Table(map[], 1), Table(map[], 1), Table(map[], 1), Table(map[], 1),
                              Table(map[], 1), Sys(false, None, None, None, 0, ""))

  ghost predicate TraceStep(dial: Dialer, s: Store, e: Event, s': Store)
  {
    match e
    case Mutate(m) => Allowed(s, m) && s' == Apply(dial, s, m)
    case Load(r) => Recordable(s, r) && s' == Recorded(s, r)
  }

  ghost predicate StepsAt(dial: Dialer, ss: seq<Store>, es: seq<Event>, k: nat)
    requires k < |es| == |ss| - 1
  {
    TraceStep(dial, ss[k], es[k], ss[k + 1])
  }

  ghost predicate Trace(dial: Dialer, ss: seq<Store>, es: seq<Event>)
  {
    && |ss| == |es| + 1 && ss[0] == EMPTY
    && forall k :: 0 <= k < |es| ==> StepsAt(dial, ss, es, k)
  }

  lemma {:induction false} TraceInv(dial: Dialer, ss: seq<Store>, es: seq<Event>, k: nat)
    requires Trace(dial, ss, es) && k <= |es|
    ensures StoreInv(ss[k])
  {
    if k > 0 {
      TraceInv(dial, ss, es, k - 1);
      assert StepsAt(dial, ss, es, k - 1);
      match es[k - 1]
      case Mutate(m) => StoreInvStep(dial, ss[k - 1], m);
      case Load(r) => RecordedInv(ss[k - 1], r);
    }
  }

  /** Tags and group names are valid and unique in every state of every trace. */
  lemma {:induction false} TraceSchema(dial: Dialer, ss: seq<Store>, es: seq<Event>, k: nat)
    requires Trace(dial, ss, es) && k <= |es|
    ensures SchemaInv(ss[k])
  {
    if k > 0 {
      TraceInv(dial, ss, es, k - 1);
      TraceSchema(dial, ss, es, k - 1);
      assert StepsAt(dial, ss, es, k - 1);
      if es[k - 1].Mutate? { SchemaInvStep(dial, ss[k - 1], es[k - 1].m); }
    }
  }

  /** With updateNode used as documented, no subscription ever holds two nodes with one link. */
  lemma {:induction false} TraceLinks(dial: Dialer, ss: seq<Store>, es: seq<Event>, k: nat)
    requires Trace(dial, ss, es) && k <= |es|
    requires forall j :: 0 <= j < k && es[j].Mutate? ==> OwnNodeOnly(ss[j], es[j].m)
    ensures LinksUnique(ss[k].nodes)
  {
    if k > 0 {
      TraceInv(dial, ss, es, k - 1);
      TraceLinks(dial, ss, es, k - 1);
      assert StepsAt(dial, ss, es, k - 1);
      if es[k - 1].Mutate? { LinksStep(dial, ss[k - 1], es[k - 1].m); }
    }
  }

  ghost predicate TraceDocumented(ss: seq<Store>, es: seq<Event>)
    requires |ss| == |es| + 1
  {
    forall k :: 0 <= k < |es| && es[k].Mutate? ==> Documented(ss[k], es[k].m)
  }

  lemma RunningBefore(dial: Dialer, ss: seq<Store>, es: seq<Event>, k: nat)
    requires Trace(dial, ss, es) && k < |es| && es[k].Mutate? && ss[k + 1].sys.running
    ensures ss[k].sys.running
  {
    assert StepsAt(dial, ss, es, k);
  }

  /** `j` is the last run before `k`. */
  ghost predicate LastLoad(es: seq<Event>, j: nat, k: nat)
  {
    j < k <= |es| && es[j].Load? && forall i :: j < i < k ==> es[i].Mutate?
  }

  /** A running state has an earlier run. */
  lemma {:induction false} FindLoad(dial: Dialer, ss: seq<Store>, es: seq<Event>, k: nat) returns (j: nat)
    requires Trace(dial, ss, es) && k <= |es| && ss[k].sys.running
    ensures LastLoad(es, j, k)
  {
    match es[k - 1]
    case Load(_) =>
      j := k - 1;
    case Mutate(m) =>
      RunningBefore(dial, ss, es, k - 1);
      j := FindLoad(dial, ss, es, k - 1);
  }

  /** The nodes that updateNode was applied to after `j` and before `k`. */
  function EditedSince(es: seq<Event>, j: nat, k: nat): set<nat>
    requires j < k <= |es|
  {
    if k == j + 1 then {}
    else EditedSince(es, j, k - 1) + if es[k - 1].Mutate? then EditedBy(es[k - 1].m) else {}
  }

  lemma {:induction false} EditedAfter(es: seq<Event>, j: nat, ms: seq<Mutation>, n: nat)
    requires n <= |ms| && j + 1 + n <= |es| && forall i :: 0 <= i < n ==> es[j + 1 + i] == Mutate(ms[i])
    ensures EditedIn(ms, n) == EditedSince(es, j, j + 1 + n)
  {
    if n > 0 {
      EditedAfter(es, j, ms, n - 1);
      assert es[j + 1 + (n - 1)] == Mutate(ms[n - 1]);
    }
  }

  /** What follows the last run is a history. */
  lemma AfterLoad(dial: Dialer, ss: seq<Store>, es: seq<Event>, j: nat, k: nat)
    returns (hs: seq<Store>, ms: seq<Mutation>)
    requires Trace(dial, ss, es) && LastLoad(es, j, k)
    ensures Recordable(ss[j], es[j].r) && History(dial, hs, ms) && |ms| == k - j - 1
    ensures hs[0] == Recorded(ss[j], es[j].r) && hs[|ms|] == ss[k]
    ensures TraceDocumented(ss, es) ==> AllDocumented(hs, ms)
    ensures EditedIn(ms, |ms|) == EditedSince(es, j, k)
  {
    LoadedAt(dial, ss, es, j);
    hs := ss[j + 1..k + 1];
    ms := seq(k - j - 1, i requires 0 <= i < k - j - 1 => es[j + 1 + i].m);
    forall i | 0 <= i < |ms| ensures MutatesAt(dial, hs, ms, i) {
      TraceMutates(dial, ss, es, hs, ms, j + 1 + i, i);
    }
    EditedAfter(es, j, ms, |ms|);
  }

  lemma LoadedAt(dial: Dialer, ss: seq<Store>, es: seq<Event>, j: nat)
    requires Trace(dial, ss, es) && j < |es| && es[j].Load?
    ensures Recordable(ss[j], es[j].r) && ss[j + 1] == Recorded(ss[j], es[j].r)
  {
    assert StepsAt(dial, ss, es, j);
  }

  lemma TraceMutates(dial: Dialer, ss: seq<Store>, es: seq<Event>, hs: seq<Store>, ms: seq<Mutation>, k: nat, i: nat)
    requires Trace(dial, ss, es) && k < |es| && i < |ms| == |hs| - 1
    requires es[k] == Mutate(ms[i]) && hs[i] == ss[k] && hs[i + 1] == ss[k + 1]
    ensures MutatesAt(dial, hs, ms, i)
  {
    assert StepsAt(dial, ss, es, k);
  }

  ghost predicate LoadedVersions(pre: Store, r: Recording, s: Store)
  {
    && (forall k :: IsSelected(s, k, Pick(r, k)) && SameSection(pre, s, k, Pick(r, k)))
    && (forall id :: id in RunningIds(s.groups) <==> id in r.groups)
    && (forall id :: id in r.groups ==> id in s.groups.rows && VersionOf(s.groups, id) == VersionOf(pre.groups, id))
  }

  ghost predicate LoadedGroups(pre: Store, r: Recording, s: Store)
  {
    forall id :: id in r.groups ==>
      id in pre.groups.rows && id in s.groups.rows && SameGroup(pre.groups.rows[id], s.groups.rows[id])
  }

  ghost predicate LoadedContent(pre: Store, r: Recording, s: Store, edited: set<nat>)
  {
    forall id :: id in r.groups ==> id in pre.groups.rows && id in s.groups.rows &&
                                    SameContent(pre, pre.groups.rows[id], s, s.groups.rows[id], edited)
  }

  lemma ContentLoaded(pre: Store, r: Recording, s: Store, edited: set<nat>)
    requires RunningSince(pre, r, s) && Unmodified(s) && ContentSince(Recorded(pre, r), s, edited)
    ensures LoadedContent(pre, r, s, edited)
  {
    forall id | id in r.groups
      ensures id in pre.groups.rows && id in s.groups.rows &&
              SameContent(pre, pre.groups.rows[id], s, s.groups.rows[id], edited)
    {
      ContentSound(pre, r, s, edited, id);
    }
  }

  lemma GroupsLoaded(pre: Store, r: Recording, s: Store)
    requires RunningSince(pre, r, s) && Unmodified(s) && GroupsKept(Recorded(pre, r), s)
    ensures LoadedVersions(pre, r, s) && LoadedGroups(pre, r, s)
  {
    FingerprintSound(pre, r, s);
    forall id | id in r.groups
      ensures id in pre.groups.rows && id in s.groups.rows && SameGroup(pre.groups.rows[id], s.groups.rows[id])
    {
      GroupSound(pre, r, s, id);
    }
  }

  /** Over all traces: whenever `Modified` says no in a running state, the selection, every group version and
      every group's row, bindings and members are those that the last run recorded; and if mutations
      were used as documented, every group draws on the same nodes, which have kept link and name but
      for those that updateNode was applied to since. */
  lemma UnmodifiedMeansSame(dial: Dialer, ss: seq<Store>, es: seq<Event>, k: nat) returns (j: nat)
    requires Trace(dial, ss, es) && k <= |es| && ss[k].sys.running && Unmodified(ss[k])
    ensures LastLoad(es, j, k) && LoadedVersions(ss[j], es[j].r, ss[k]) && LoadedGroups(ss[j], es[j].r, ss[k])
    ensures TraceDocumented(ss, es) ==> LoadedContent(ss[j], es[j].r, ss[k], EditedSince(es, j, k))
  {
    j := FindLoad(dial, ss, es, k);
    TraceInv(dial, ss, es, j);
    var hs, ms := AfterLoad(dial, ss, es, j, k);
    RecordedInv(ss[j], es[j].r);
    HistoryRunning(dial, ss[j], es[j].r, hs, ms, |ms|);
    GroupsLoaded(ss[j], es[j].r, ss[k]);
    if TraceDocumented(ss, es) {
      HistorySince(dial, hs, ms, |ms|);
      ContentLoaded(ss[j], es[j].r, ss[k], EditedSince(es, j, k));
    }
  }

  /** Over all runs: the ids that `Modified` dereferences are there. */
  lemma RunningRefsPresent(dial: Dialer, ss: seq<Store>, es: seq<Event>, k: nat, kind: Kind)
    requires Trace(dial, ss, es) && k <= |es| && ss[k].sys.running
    ensures Running(ss[k], kind).Some? && SectionsInv(ss[k])
  {
    var j := FindLoad(dial, ss, es, k);
    TraceInv(dial, ss, es, j);
    var hs, ms := AfterLoad(dial, ss, es, j, k);
    HistoryRunning(dial, ss[j], es[j].r, hs, ms, |ms|);
    RunningRef(ss[j], es[j].r, ss[k], kind);
  }
}

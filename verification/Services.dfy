/** The services' transactions in their own form: tables updated in place, statement by statement,
    with a rollback to the begin of the transaction. Each is proved to be one step of Store.Apply. */
module Services {
  import opened Wrappers
  import opened Database
  import opened Text
  import opened Tables
  import opened NodeImport
  import opened SubscriptionRefresh
  import opened Store
  import opened Effects
  import opened ChangeDetector

  /** The groups are running that the run recorded, and no others; nothing else of them changes. */
  ghost predicate MarksOnly(t: Table<Group>, t': Table<Group>, ids: seq<nat>)
  {
    && t'.next == t.next && (forall g :: g in t'.rows <==> g in t.rows)
    && (forall g :: g in t'.rows ==> t'.rows[g] == t.rows[g].(running := t'.rows[g].running))
    && (forall g :: g in t'.rows ==> (t'.rows[g].running <==> g in ids))
  }

  /** The reference names the row in its present version. */
  predicate Names(t: Table<Section>, id: nat, ref: Option<Ref>)
  {
    id in t.rows && ref == Some(Ref(id, t.rows[id].version))
  }

  lemma Picked(s: Store, r: Recording)
    requires Recordable(s, r)
    ensures IsSelected(s, Global, r.config) && IsSelected(s, Dns, r.dns) && IsSelected(s, Routing, r.routing)
  {
    assert IsSelected(s, Global, Pick(r, Global)) && IsSelected(s, Dns, Pick(r, Dns));
    assert IsSelected(s, Routing, Pick(r, Routing));
  }

  class WingDb {
    var configs: Table<Section>
    var dnss: Table<Section>
    var routings: Table<Section>
    var groups: Table<Group>
    var nodes: Table<NodeRow>
    var subs: Table<SubRow>
    var sys: Sys

    /** The whole content; at the begin of a transaction, what a rollback returns to. */
    function View(): Store
      reads this
    {
      Store(configs, dnss, routings, groups, nodes, subs, sys)
    }

    constructor (s: Store)
      ensures View() == s
    {
      configs, dnss, routings := s.configs, s.dnss, s.routings;
      groups, nodes, subs, sys := s.groups, s.nodes, s.subs, s.sys;
    }

    method Rollback(tx: Store)
      modifies this
      ensures View() == tx
    {
      configs, dnss, routings := tx.configs, tx.dnss, tx.routings;
      groups, nodes, subs, sys := tx.groups, tx.nodes, tx.subs, tx.sys;
    }

    method SetSections(kind: Kind, t: Table<Section>)
      modifies this
      ensures View() == WithSections(old(View()), kind, t)
    {
      match kind
      case Global => configs := t;
      case Dns => dnss := t;
      case Routing => routings := t;
    }

    // ---- config, dns and routing ----

    /** Unset all selected, set one, and fail without such a row. */
    method Select(ghost dial: Dialer, kind: Kind, id: nat) returns (ok: bool)
      modifies this
      ensures View() == Apply(dial, old(View()), SelectSection(kind, id))
      ensures ok <==> id in Sections(old(View()), kind).rows
      ensures !ok ==> View() == old(View())
      ensures ok ==> OnlySections(old(View()), View(), kind) &&
                     SelectsOnly(Sections(old(View()), kind), Sections(View(), kind), id)
    {
      var tx := View();
      var t := Sections(tx, kind);
      t := t.(rows := map k | k in t.rows :: t.rows[k].(selected := false));
      SetSections(kind, t);
      var rowsAffected := if id in t.rows then 1 else 0;
      if id in t.rows {
        t := t.(rows := t.rows[id := t.rows[id].(selected := true)]);
        SetSections(kind, t);
      }
      if rowsAffected == 0 {
        Rollback(tx);
        return false;
      }
      assert t == Selected(Sections(tx, kind), id);
      return true;
    }

    /** `parsed` is the new text if the grammar check passed. */
    method UpdateOne(ghost dial: Dialer, kind: Kind, id: nat, parsed: Option<string>) returns (ok: bool)
      modifies this
      ensures ok <==> id in Sections(old(View()), kind).rows && parsed.Some?
      ensures View() == if ok then Apply(dial, old(View()), UpdateSection(kind, id, parsed.value)) else old(View())
      ensures ok ==>
                var (t, t') := (Sections(old(View()), kind), Sections(View(), kind));
                && OnlySections(old(View()), View(), kind) && ChangedAt(t, t', id)
                && SetsText(t.rows[id], t'.rows[id], parsed.value)
    {
      var t := Sections(View(), kind);
      if id !in t.rows || parsed.None? {
        return false;
      }
      SetSections(kind, Update(t, id, t.rows[id].(text := parsed.value, version := t.rows[id].version + 1)));
      return true;
    }

    // ---- groups ----

    /** `autoUpdateVersionById`: an update that finds no row is no error. */
    method AutoUpdateVersionById(id: nat)
      modifies this`groups
      ensures groups == if id in old(groups).rows
                        then Update(old(groups), id, old(groups).rows[id].(version := old(groups).rows[id].version + 1))
                        else old(groups)
    {
      if id in groups.rows {
        groups := Update(groups, id, groups.rows[id].(version := groups.rows[id].version + 1));
      }
    }

    /** Rows of group_subscriptions are written first, then the version. */
    method BindSubscriptions(ghost dial: Dialer, id: nat, ids: set<nat>, regex: Option<string>)
      modifies this
      ensures View() == Apply(dial, old(View()), AddSubscriptions(id, ids, regex))
      ensures GroupEffect(old(View()), AddSubscriptions(id, ids, regex), View())
    {
      if id in groups.rows {
        var g := groups.rows[id];
        groups := Update(groups, id, g.(bindings := g.bindings + map sub | sub in ids :: regex));
      }
      AutoUpdateVersionById(id);
    }

    method UnbindSubscriptions(ghost dial: Dialer, id: nat, ids: set<nat>)
      modifies this
      ensures View() == Apply(dial, old(View()), DelSubscriptions(id, ids))
      ensures GroupEffect(old(View()), DelSubscriptions(id, ids), View())
    {
      if id in groups.rows {
        var g := groups.rows[id];
        groups := Update(groups, id, g.(bindings := g.bindings - ids));
      }
      AutoUpdateVersionById(id);
    }

    method AppendNodes(ghost dial: Dialer, id: nat, ids: set<nat>)
      modifies this
      ensures View() == Apply(dial, old(View()), AddNodes(id, ids))
      ensures GroupEffect(old(View()), AddNodes(id, ids), View())
    {
      if id in groups.rows {
        var g := groups.rows[id];
        groups := Update(groups, id, g.(members := g.members + ids));
      }
      AutoUpdateVersionById(id);
    }

    method DeleteNodes(ghost dial: Dialer, id: nat, ids: set<nat>)
      modifies this
      ensures View() == Apply(dial, old(View()), DelNodes(id, ids))
      ensures GroupEffect(old(View()), DelNodes(id, ids), View())
    {
      if id in groups.rows {
        var g := groups.rows[id];
        groups := Update(groups, id, g.(members := g.members - ids));
      }
      AutoUpdateVersionById(id);
    }

    /** Policy first; without such a row nothing else is done and the answer is 0. */
    method ReplacePolicy(ghost dial: Dialer, id: nat, policy: string, params: seq<Param>) returns (n: nat)
      modifies this
      ensures View() == Apply(dial, old(View()), SetPolicy(id, policy, params))
      ensures GroupEffect(old(View()), SetPolicy(id, policy, params), View())
      ensures n == if id in old(groups).rows then 1 else 0
    {
      if id !in groups.rows {
        return 0;
      }
      groups := Update(groups, id, groups.rows[id].(policy := policy));
      groups := Update(groups, id, groups.rows[id].(params := params));
      AutoUpdateVersionById(id);
      return 1;
    }

    /** Delete the row with its associations, then a version update that finds no row. */
    method DropGroup(ghost dial: Dialer, id: nat) returns (n: nat)
      modifies this
      ensures View() == Apply(dial, old(View()), RemoveGroup(id))
      ensures View() == old(View()).(groups := groups) && Without(old(groups), groups, {id})
      ensures n == if id in old(groups).rows then 1 else 0
    {
      n := if id in groups.rows then 1 else 0;
      groups := Delete(groups, {id});
      AutoUpdateVersionById(id);
    }

    // ---- nodes and subscriptions ----

    /** `AutoUpdateVersionByIds` of the node service. */
    method AutoUpdateVersionByNodes(ids: set<nat>)
      modifies this`groups
      ensures View() == BumpedByNodes(old(View()), ids)
      ensures BumpsByNodes(old(View()), groups, ids)
    {
      if !sys.running {
        return;
      }
      var g := set g | g in groups.rows && groups.rows[g].running && !(groups.rows[g].members !! ids);
      groups := Bumped(groups, g);
    }

    /** `AutoUpdateVersionByIds` of the subscription service. */
    method AutoUpdateVersionBySubs(ids: set<nat>)
      modifies this`groups
      ensures View() == BumpedBySubs(old(View()), ids)
      ensures BumpsBySubs(old(View()), groups, ids)
    {
      if !sys.running {
        return;
      }
      var g := set g | g in groups.rows && groups.rows[g].running && !(groups.rows[g].bindings.Keys !! ids);
      groups := Bumped(groups, g);
    }

    method DropNodes(ghost dial: Dialer, ids: set<nat>) returns (n: nat)
      modifies this
      ensures View() == Apply(dial, old(View()), RemoveNodes(ids))
      ensures Without(old(nodes), nodes, ids) && BumpsByNodes(old(View()), groups, ids)
      ensures n == |set id | id in ids && id in old(nodes).rows|
    {
      AutoUpdateVersionByNodes(ids);
      n := |set id | id in ids && id in nodes.rows|;
      nodes := Delete(nodes, ids);
    }

    /** The bumps, for the subscriptions' nodes and for the subscriptions. */
    method BumpForRemoval(ids: set<nat>) returns (nodeIds: set<nat>)
      modifies this`groups
      ensures nodeIds == OfSubs(old(nodes), ids)
      ensures View() == BumpedBySubs(BumpedByNodes(old(View()), nodeIds), ids)
    {
      nodeIds := OfSubs(nodes, ids);
      AutoUpdateVersionByNodes(nodeIds);
      AutoUpdateVersionBySubs(ids);
    }

    /** The statements of `Remove`; `n` is the number of rows removed. The schedulers are in SchedulerRegistry. */
    method DropSubscriptions(ghost dial: Dialer, ids: set<nat>) returns (n: nat)
      modifies this
      ensures View() == Apply(dial, old(View()), RemoveSubscriptions(ids))
      ensures UnsubscribeEffect(old(View()), ids, View())
      ensures n == |set id | id in ids && id in old(subs).rows|
    {
      RemovalEffect(View(), ids);
      n := |set id | id in ids && id in subs.rows|;
      var nodeIds := BumpForRemoval(ids);
      nodes, groups, subs := Delete(nodes, nodeIds), WithoutBindings(groups, ids), Delete(subs, ids);
    }

    /** `UpdateById` before its transaction: the link to fetch. */
    method FindSubscription(id: nat) returns (link: Option<string>)
      ensures link == if id in subs.rows then Some(subs.rows[id].link) else None
    {
      return if id in subs.rows then Some(subs.rows[id].link) else None;
    }

    /** Its transaction, some time after FindSubscription has found the row. */
    method CommitRefresh(dial: Dialer, id: nat, links: seq<string>) returns (ok: bool)
      modifies this
      ensures View() == Apply(dial, old(View()), UpdateSubscription(id, links))
      ensures ok <==> Refreshed(dial, old(nodes), Pinned(old(groups)), id, links).Some?
      ensures KeysBelow(old(nodes)) ==> RefreshEffect(dial, old(View()), id, links, View())
      ensures KeysBelow(old(nodes)) ==> (ok <==> AnyNewLink(dial, old(View()), id, links))
    {
      if KeysBelow(nodes) {
        RefreshedEffect(dial, View(), id, links);
        RefreshCommits(dial, nodes, Pinned(groups), id, links);
      }
      var tx := View();
      var pinned := Pinned(groups);
      nodes, ok := Refresh(dial, nodes, pinned, id, links);
      if !ok {
        Rollback(tx);
        return false;
      }
      AutoUpdateVersionBySubs({id});
    }

    /** The whole of it, when nothing else happens while `fetch` is under way: find, fetch, commit. */
    method UpdateById(dial: Dialer, fetch: string -> Option<seq<string>>, id: nat) returns (ok: bool)
      modifies this
      ensures ok ==> id in old(subs).rows && fetch(old(subs).rows[id].link).Some? &&
                     View() == Apply(dial, old(View()),
                                     UpdateSubscription(id, fetch(old(subs).rows[id].link).value))
      ensures !ok ==> View() == old(View())
      ensures ok <==>
              && id in old(subs).rows && fetch(old(subs).rows[id].link).Some?
              && Refreshed(dial, old(nodes), Pinned(old(groups)), id, fetch(old(subs).rows[id].link).value).Some?
    {
      var link := FindSubscription(id);
      if link.None? {
        return false;
      }
      var links := fetch(link.value);
      if links.None? {
        return false;
      }
      ok := CommitRefresh(dial, id, links.value);
    }

    method UpdateLink(ghost dial: Dialer, id: nat, link: string) returns (ok: bool)
      modifies this
      ensures View() == Apply(dial, old(View()), UpdateSubscriptionLink(id, link))
      ensures LinkEffect(old(View()), id, link, View())
      ensures ok <==> id in old(subs).rows
    {
      RelinkedEffect(dial, View(), id, link);
      if id !in subs.rows {
        return false;
      }
      subs := Update(subs, id, subs.rows[id].(link := link));
      AutoUpdateVersionBySubs({id});
      return true;
    }

    /** A new subscription row; no row with an invalid tag or with one that is in use. */
    method CreateSubscription(link: string, tag: Option<string>) returns (ok: bool)
      modifies this`subs
      ensures ok <==> SubTagOk(old(subs), tag)
      ensures subs == if ok then Insert(old(subs), SubRow(link, tag)) else old(subs)
      ensures ok ==> Grown(old(subs), subs, SubRow(link, tag))
    {
      if tag.Some? && !ValidateTag(tag.value) {
        return false;
      }
      if tag.Some? && exists id :: id in subs.rows && subs.rows[id].tag == tag {
        return false;
      }
      subs := Insert(subs, SubRow(link, tag));
      return true;
    }

    /** The nodes of a new subscription; without one that could be imported the caller rolls back. */
    method ImportNodesOf(dial: Dialer, id: nat, abort: bool, links: seq<string>) returns (ok: bool)
      modifies this`nodes
      ensures ok <==> !(abort && AnyFatal(dial, old(nodes), Some(id), ArgsOf(links)))
                      && AnyImported(dial, old(nodes), id, ArgsOf(links))
      ensures ok ==> nodes == TableAfter(dial, old(nodes), Some(id), ArgsOf(links), |links|)
    {
      var args := LinksToArgs(links);
      var results;
      nodes, results := Import(dial, nodes, abort, Some(id), args);
      if results.None? {
        return false;
      }
      ok := HasAnyCandidate(results.value);
    }

    /** A new subscription with its nodes; rolled back unless some node could be imported. */
    method ImportLinks(dial: Dialer, link: string, tag: Option<string>, abort: bool, links: seq<string>)
      returns (ok: bool)
      modifies this
      ensures View() == Apply(dial, old(View()), ImportSubscription(link, tag, abort, links))
      ensures KeysBelow(old(nodes)) ==> SubscribeEffect(dial, old(View()), link, tag, abort, links, View())
      ensures ok <==> View() != old(View())
    {
      if KeysBelow(nodes) { SubscribedEffect(dial, View(), link, tag, abort, links); }
      var tx, id := View(), subs.next;
      ok := CreateSubscription(link, tag);
      if ok {
        ok := ImportNodesOf(dial, id, abort, links);
      }
      if !ok {
        Rollback(tx);
      }
    }

    // ---- the running state ----

    /** The version sum and the sorted id list of the groups. */
    method Fingerprints(ids: seq<nat>) returns (gvs: nat, gids: string)
      requires forall id :: id in ids ==> id in groups.rows
      ensures gvs == VersionSum(groups, ids) && gids == IdString(ids)
    {
      gvs := 0;
      var list: seq<string> := [];
      for k := 0 to |ids|
        invariant gvs == VersionSum(groups, ids[..k]) && list == HexAll(ids[..k])
      {
        assert ids[..k + 1][..k] == ids[..k];
        gvs := gvs + groups.rows[ids[k]].version;
        list := list + [Hex(ids[k])];
      }
      assert ids[..|ids|] == ids;
      gids := Join(Sort(list));
    }

    /** "Save running status". */
    method Record(r: Recording)
      requires Recordable(View(), r)
      modifies this
      ensures View() == Recorded(old(View()), r)
      ensures View() == old(View()).(groups := groups, sys := sys) && MarksOnly(old(groups), groups, r.groups)
      ensures sys.running && Names(configs, r.config, sys.config)
      ensures Names(dnss, r.dns, sys.dns) && Names(routings, r.routing, sys.routing)
      ensures sys.versionSum == VersionSum(old(groups), r.groups) && sys.groupIds == IdString(r.groups)
    {
      var gvs, gids := Fingerprints(r.groups);
      Picked(View(), r);
      sys := Sys(true, Some(Ref(r.config, configs.rows[r.config].version)), Some(Ref(r.dns, dnss.rows[r.dns].version)),
                 Some(Ref(r.routing, routings.rows[r.routing].version)), gvs, gids);
      groups := Marked(groups, r.groups);
    }

    /** The end of a dry run, and of a failed restoreRunningState. */
    method SetStopped(ghost dial: Dialer)
      modifies this
      ensures View() == Apply(dial, old(View()), Stop)
      ensures View() == old(View()).(sys := sys) && sys == old(sys).(running := false)
    {
      sys := sys.(running := false);
    }
  }
}

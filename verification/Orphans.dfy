/** Nodes of subscriptions that do not exist: they come exactly from refreshes whose subscription was removed
    between the lookup and the transaction of `UpdateById` (graphql/service/subscription/mutation_utils.go). */
module Orphans {
  import opened Wrappers
  import opened Database
  import opened Tables
  import opened NodeImport
  import opened SubscriptionRefresh
  import opened Store
  import opened ModifiedSoundness

  predicate Orphan(s: Store, n: nat)
  {
    n in s.nodes.rows && s.nodes.rows[n].subscription.Some? && s.nodes.rows[n].subscription.value !in s.subs.rows
  }

  ghost predicate NoOrphans(s: Store)
  {
    forall n :: n in s.nodes.rows ==> !Orphan(s, n)
  }

  /** A refresh that commits although its subscription, found before the transaction, is gone. */
  ghost predicate LateRefresh(dial: Dialer, s: Store, m: Mutation)
  {
    m.UpdateSubscription? && m.id !in s.subs.rows && Refreshed(dial, s.nodes, Pinned(s.groups), m.id, m.links).Some?
  }

  lemma RefreshOrphans(dial: Dialer, s: Store, id: nat, links: seq<string>)
    requires KeysBelow(s.nodes) && NoOrphans(s)
    ensures var m := UpdateSubscription(id, links); NoOrphans(Apply(dial, s, m)) <==> !LateRefresh(dial, s, m)
  {
    var t := Refreshed(dial, s.nodes, Pinned(s.groups), id, links);
    if t.Some? {
      RefreshedIsGood(dial, s.nodes, Pinned(s.groups), id, links);
      RefreshAdds(dial, s.nodes, Pinned(s.groups), id, links);
      var s' := Apply(dial, s, UpdateSubscription(id, links));
      var n :| n in t.value.rows && n !in s.nodes.rows;
      assert s'.nodes.rows[n].subscription == Some(id);
      forall n | n in s'.nodes.rows ensures Orphan(s', n) <==> n !in s.nodes.rows && id !in s.subs.rows {
        assert n in s.nodes.rows ==> !Orphan(s, n);
      }
    }
  }

  lemma ImportsNoOrphans(dial: Dialer, s: Store, m: Mutation)
    requires KeysBelow(s.nodes) && NoOrphans(s) && (m.ImportNodes? || m.ImportSubscription?)
    ensures NoOrphans(Apply(dial, s, m))
  {
    match m
    case ImportNodes(_, args) => ImportGrows(dial, s.nodes, None, args, |args|);
    case ImportSubscription(_, _, _, links) =>
      ImportGrows(dial, s.nodes, Some(s.subs.next), ArgsOf(links), |links|);
  }

  lemma EditsNoOrphans(dial: Dialer, s: Store, m: Mutation)
    requires NoOrphans(s) && (m.UpdateNode? || m.TagNode? || m.RemoveNodes? || m.RemoveSubscriptions?)
    ensures NoOrphans(Apply(dial, s, m))
  {
    var s' := Apply(dial, s, m);
    forall n | n in s'.nodes.rows ensures !Orphan(s', n) {
      assert !Orphan(s, n);
    }
  }

  lemma OthersNoOrphans(dial: Dialer, s: Store, m: Mutation)
    requires NoOrphans(s) && !ConcernsNodes(m)
    ensures NoOrphans(Apply(dial, s, m))
  {
    var s' := Apply(dial, s, m);
    OtherNodes(dial, s, m);
    forall n | n in s'.nodes.rows ensures !Orphan(s', n) {
      assert !Orphan(s, n);
    }
  }

  /** Of all mutations only a late refresh leaves orphans. */
  lemma OrphansStep(dial: Dialer, s: Store, m: Mutation)
    requires KeysBelow(s.nodes) && NoOrphans(s)
    ensures NoOrphans(Apply(dial, s, m)) <==> !LateRefresh(dial, s, m)
  {
    match m
    case UpdateSubscription(id, links) => RefreshOrphans(dial, s, id, links);
    case ImportNodes(_, _) => ImportsNoOrphans(dial, s, m);
    case ImportSubscription(_, _, _, _) => ImportsNoOrphans(dial, s, m);
    case _ => if ConcernsNodes(m) { EditsNoOrphans(dial, s, m); } else { OthersNoOrphans(dial, s, m); }
  }

  /** Every refresh of the trace before `k` found its row again, or did not commit. */
  ghost predicate NoLateRefresh(dial: Dialer, ss: seq<Store>, es: seq<Event>, k: nat)
    requires k <= |es| < |ss|
  {
    forall j :: 0 <= j < k && es[j].Mutate? ==> !LateRefresh(dial, ss[j], es[j].m)
  }

  lemma TraceOrphanStep(dial: Dialer, ss: seq<Store>, es: seq<Event>, k: nat)
    requires Trace(dial, ss, es) && k < |es| && NoOrphans(ss[k])
    ensures NoOrphans(ss[k + 1]) <==> !(es[k].Mutate? && LateRefresh(dial, ss[k], es[k].m))
  {
    TraceInv(dial, ss, es, k);
    assert StepsAt(dial, ss, es, k);
    match es[k]
    case Mutate(m) => OrphansStep(dial, ss[k], m);
    case Load(_) =>
      forall n | n in ss[k].nodes.rows ensures !Orphan(ss[k + 1], n) { assert !Orphan(ss[k], n); }
  }

  lemma {:induction false} TraceNoOrphans(dial: Dialer, ss: seq<Store>, es: seq<Event>, k: nat)
    requires Trace(dial, ss, es) && k <= |es| && NoLateRefresh(dial, ss, es, k)
    ensures NoOrphans(ss[k])
  {
    if k > 0 {
      TraceNoOrphans(dial, ss, es, k - 1);
      TraceOrphanStep(dial, ss, es, k - 1);
    }
  }

  /** The first late refresh of a trace leaves orphans. */
  lemma {:induction false} LateRefreshLeaves(dial: Dialer, ss: seq<Store>, es: seq<Event>, k: nat) returns (j: nat)
    requires Trace(dial, ss, es) && k <= |es| && !NoLateRefresh(dial, ss, es, k)
    ensures j <= k && !NoOrphans(ss[j])
  {
    if NoLateRefresh(dial, ss, es, k - 1) {
      TraceNoOrphans(dial, ss, es, k - 1);
      TraceOrphanStep(dial, ss, es, k - 1);
      j := k;
    } else {
      j := LateRefreshLeaves(dial, ss, es, k - 1);
    }
  }

  /** Over all traces: no node ever belongs to a missing subscription, if and only if no refresh commits after
      its subscription was removed. */
  lemma OrphansExactly(dial: Dialer, ss: seq<Store>, es: seq<Event>)
    requires Trace(dial, ss, es)
    ensures (forall k :: 0 <= k < |ss| ==> NoOrphans(ss[k])) <==> NoLateRefresh(dial, ss, es, |es|)
  {
    if NoLateRefresh(dial, ss, es, |es|) {
      forall k | 0 <= k < |ss| ensures NoOrphans(ss[k]) {
        TraceNoOrphans(dial, ss, es, k);
      }
    } else {
      var j := LateRefreshLeaves(dial, ss, es, |es|);
    }
  }

  // ---- The finding at an input ----

  function Dial(link: string, tag: string): Option<string>
  {
    Some("n")
  }

  const SUB := SubRow("s://t", None)

  function NodeOf(n: nat): NodeRow
  {
    NodeRow(n, "a://b", "n", None, Some(1))
  }

  function Subscribed(subs: map<nat, SubRow>, nodes: map<nat, NodeRow>, next: nat): Store
  {
    EMPTY.(subs := Table(subs, 2), nodes := Table(nodes, next))
  }

  /** Importing the one link of the subscription. */
  lemma OneImported(t: Table<NodeRow>)
    requires t.rows == map[]
    ensures TableAfter(Dial, t, Some(1), ArgsOf(["a://b"]), 1) == Table(map[t.next := NodeOf(t.next)], t.next + 1)
    ensures AnyImported(Dial, t, 1, ArgsOf(["a://b"]))
  {
    var args := ArgsOf(["a://b"]);
    assert "://" <= "a://b"[1..];
    assert TableAfter(Dial, t, Some(1), args, 0) == t;
    assert Imported(Dial, t, Some(1), args[0]) == (Table(map[t.next := NodeOf(t.next)], t.next + 1), Ok(t.next));
    assert Outcome(Dial, t, Some(1), args, 0).Ok?;
  }

  const IMPORTED: Store := Subscribed(map[1 := SUB], map[1 := NodeOf(1)], 2)
  const REMOVED: Store := Subscribed(map[], map[], 2)
  const ORPHANED: Store := Subscribed(map[], map[2 := NodeOf(2)], 3)

  lemma Imports()
    ensures Apply(Dial, EMPTY, ImportSubscription("s://t", None, false, ["a://b"])) == IMPORTED
  {
    OneImported(EMPTY.nodes);
  }

  lemma Removes()
    ensures Apply(Dial, IMPORTED, RemoveSubscriptions({1})) == REMOVED
  {
    var s := Apply(Dial, IMPORTED, RemoveSubscriptions({1}));
    assert 1 in OfSubs(IMPORTED.nodes, {1});
    assert s.nodes.rows == map[] && s.subs.rows == map[];
    assert s.groups.rows == map[];
  }

  lemma RefreshesLate()
    ensures Apply(Dial, REMOVED, UpdateSubscription(1, ["a://b"])) == ORPHANED
  {
    var kept := Kept(REMOVED.nodes, Pinned(REMOVED.groups), 1);
    assert kept.rows == map[];
    OneImported(kept);
  }

  /** A subscription is imported, found by a refresh, and removed; then the refresh commits. */
  lemma LateRefreshOrphans() returns (ss: seq<Store>, es: seq<Event>)
    ensures Trace(Dial, ss, es) && |es| == 3 && 1 in ss[1].subs.rows
    ensures es[1] == Mutate(RemoveSubscriptions({1})) && es[2] == Mutate(UpdateSubscription(1, ["a://b"]))
    ensures ss[3].subs.rows == map[] && Orphan(ss[3], 2)
  {
    Imports();
    Removes();
    RefreshesLate();
    ss := [EMPTY, IMPORTED, REMOVED, ORPHANED];
    es := [Mutate(ImportSubscription("s://t", None, false, ["a://b"])), Mutate(RemoveSubscriptions({1})),
           Mutate(UpdateSubscription(1, ["a://b"]))];
    assert StepsAt(Dial, ss, es, 0) && StepsAt(Dial, ss, es, 1) && StepsAt(Dial, ss, es, 2);
  }
}

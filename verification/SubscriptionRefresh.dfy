/** Refreshing a subscription: the node part of the transaction `UpdateById` in
    graphql/service/subscription/mutation_utils.go. */
module SubscriptionRefresh {
  import opened Wrappers
  import opened Database
  import opened Tables
  import opened NodeImport

  function OfSubs(t: Table<NodeRow>, subs: set<nat>): set<nat>
  {
    set id | id in t.rows && t.rows[id].subscription.Some? && t.rows[id].subscription.value in subs
  }

  function ArgsOf(links: seq<string>): (args: seq<Arg>)
    ensures |args| == |links| && forall i :: 0 <= i < |links| ==> args[i] == Arg(links[i], None)
  {
    seq(|links|, i requires 0 <= i < |links| => Arg(links[i], None))
  }

  /** Remove the subscription's nodes that no group holds directly. */
  function Kept(t: Table<NodeRow>, pinned: set<nat>, sub: nat): Table<NodeRow>
  {
    Delete(t, OfSubs(t, {sub}) - pinned)
  }

  ghost predicate AnyImported(dial: Dialer, t: Table<NodeRow>, sub: nat, args: seq<Arg>)
  {
    exists i :: 0 <= i < |args| && Outcome(dial, t, Some(sub), args, i).Ok?
  }

  /** The node table after a refresh, or nothing when no link could be imported. */
  ghost function Refreshed(dial: Dialer, t: Table<NodeRow>, pinned: set<nat>, sub: nat,
                           links: seq<string>): Option<Table<NodeRow>>
  {
    var kept := Kept(t, pinned, sub);
    var args := ArgsOf(links);
    if AnyImported(dial, kept, sub, args) then Some(TableAfter(dial, kept, Some(sub), args, |args|)) else None
  }

  ghost predicate PinnedLink(t: Table<NodeRow>, pinned: set<nat>, sub: nat, link: string)
  {
    exists id :: id in t.rows && id in pinned && t.rows[id].subscription == Some(sub) && t.rows[id].link == link
  }

  predicate ValidLink(dial: Dialer, link: string)
  {
    Acceptable(dial, Arg(link, None))
  }

  lemma KeptLinks(t: Table<NodeRow>, pinned: set<nat>, sub: nat, link: string)
    ensures InSubscription(Kept(t, pinned, sub), Some(sub), link) <==> PinnedLink(t, pinned, sub, link)
  {
    var kept := Kept(t, pinned, sub);
    if id :| id in kept.rows && kept.rows[id].link == link && kept.rows[id].subscription == Some(sub) {
      assert id in t.rows && id in pinned;
    }
    if id :| id in t.rows && id in pinned && t.rows[id].subscription == Some(sub) && t.rows[id].link == link {
      assert id in kept.rows && kept.rows[id] == t.rows[id];
    }
  }

  /** A refresh commits iff some fetched link is valid and not the link of a pinned node. */
  lemma RefreshCommits(dial: Dialer, t: Table<NodeRow>, pinned: set<nat>, sub: nat, links: seq<string>)
    requires KeysBelow(t)
    ensures Refreshed(dial, t, pinned, sub, links).Some? <==>
            exists i :: 0 <= i < |links| && ValidLink(dial, links[i]) && !PinnedLink(t, pinned, sub, links[i])
  {
    var kept, args := Kept(t, pinned, sub), ArgsOf(links);
    if i :| 0 <= i < |args| && Outcome(dial, kept, Some(sub), args, i).Ok? {
      ImportExactly(dial, kept, sub, args, i);
      KeptLinks(t, pinned, sub, links[i]);
    }
    if i :| 0 <= i < |links| && ValidLink(dial, links[i]) && !PinnedLink(t, pinned, sub, links[i]) {
      var j := FirstAmong(links, i);
      ImportExactly(dial, kept, sub, args, j);
      KeptLinks(t, pinned, sub, links[j]);
    }
  }

  lemma {:induction false} FirstAmong(links: seq<string>, i: nat) returns (j: nat)
    requires i < |links|
    ensures j <= i && links[j] == links[i] && forall k :: 0 <= k < j ==> links[k] != links[j]
    decreases i
  {
    if k: nat :| k < i && links[k] == links[i] {
      j := FirstAmong(links, k);
    } else {
      j := i;
    }
  }

  /** A committed refresh: the subscription's links are those of its pinned nodes and the valid fetched
      ones; pinned nodes and all nodes of others keep their ids and rows; and what is new has a new id
      and a fetched valid link that no pinned node has. */
  ghost predicate RefreshGood(dial: Dialer, t: Table<NodeRow>, pinned: set<nat>, sub: nat, links: seq<string>,
                              t': Table<NodeRow>)
  {
    && (forall link :: InSubscription(t', Some(sub), link) <==>
                       PinnedLink(t, pinned, sub, link) || (link in links && ValidLink(dial, link)))
    && (forall id :: id in t.rows ==> (id in t'.rows <==> Stays(t.rows[id], pinned, sub, id)))
    && (forall id :: id in t.rows && id in t'.rows ==> t'.rows[id] == t.rows[id])
    && (forall id :: id in t'.rows && id !in t.rows ==> FreshRow(dial, t, pinned, sub, links, id, t'.rows[id]))
  }

  predicate Stays(row: NodeRow, pinned: set<nat>, sub: nat, id: nat)
  {
    id in pinned || row.subscription != Some(sub)
  }

  ghost predicate FreshRow(dial: Dialer, t: Table<NodeRow>, pinned: set<nat>, sub: nat, links: seq<string>, id: nat,
                           row: NodeRow)
  {
    && t.next <= id && row.subscription == Some(sub) && row.tag.None? && dial(row.link, "") == Some(row.name)
    && row.link in links && ValidLink(dial, row.link) && !PinnedLink(t, pinned, sub, row.link)
  }

  lemma RefreshedIsGood(dial: Dialer, t: Table<NodeRow>, pinned: set<nat>, sub: nat, links: seq<string>)
    requires KeysBelow(t) && Refreshed(dial, t, pinned, sub, links).Some?
    ensures RefreshGood(dial, t, pinned, sub, links, Refreshed(dial, t, pinned, sub, links).value)
  {
    var kept, args := Kept(t, pinned, sub), ArgsOf(links);
    ImportedSoAll(dial, kept, sub, args, |args|);
    forall link
      ensures InSubscription(kept, Some(sub), link) <==> PinnedLink(t, pinned, sub, link)
      ensures ListedValid(dial, args, |args|, link) <==> link in links && ValidLink(dial, link)
    {
      KeptLinks(t, pinned, sub, link);
      ListedLink(dial, links, link);
    }
    ImportedGood(dial, t, pinned, sub, links, TableAfter(dial, kept, Some(sub), args, |args|));
  }

  lemma ImportedGood(dial: Dialer, t: Table<NodeRow>, pinned: set<nat>, sub: nat, links: seq<string>,
                     t': Table<NodeRow>)
    requires KeysBelow(t) && ImportedSo(dial, Kept(t, pinned, sub), sub, ArgsOf(links), |links|, t')
    requires forall link :: InSubscription(Kept(t, pinned, sub), Some(sub), link) <==> PinnedLink(t, pinned, sub, link)
    requires forall link :: ListedValid(dial, ArgsOf(links), |links|, link) <==> link in links && ValidLink(dial, link)
    ensures RefreshGood(dial, t, pinned, sub, links, t')
  {
    var kept := Kept(t, pinned, sub);
    forall id | id in t.rows
      ensures id in t'.rows <==> Stays(t.rows[id], pinned, sub, id)
      ensures id in t'.rows ==> t'.rows[id] == t.rows[id]
    {
      assert id in kept.rows <==> Stays(t.rows[id], pinned, sub, id);
    }
  }

  lemma ListedLink(dial: Dialer, links: seq<string>, link: string)
    ensures ListedValid(dial, ArgsOf(links), |links|, link) <==> link in links && ValidLink(dial, link)
  {
    if link in links {
      var i :| 0 <= i < |links| && links[i] == link;
      assert ArgsOf(links)[i] == Arg(link, None);
    }
  }

  /** A committed refresh has created at least one node. */
  lemma RefreshAdds(dial: Dialer, t: Table<NodeRow>, pinned: set<nat>, sub: nat, links: seq<string>)
    requires KeysBelow(t) && Refreshed(dial, t, pinned, sub, links).Some?
    ensures exists id :: id in Refreshed(dial, t, pinned, sub, links).value.rows && id !in t.rows
  {
    var t' := Refreshed(dial, t, pinned, sub, links).value;
    RefreshedIsGood(dial, t, pinned, sub, links);
    RefreshCommits(dial, t, pinned, sub, links);
    var i :| 0 <= i < |links| && ValidLink(dial, links[i]) && !PinnedLink(t, pinned, sub, links[i]);
    assert InSubscription(t', Some(sub), links[i]);
    var id :| id in t'.rows && t'.rows[id].link == links[i] && t'.rows[id].subscription == Some(sub);
    assert id !in t.rows;
  }

  /** A refresh keeps links unique within every subscription. */
  lemma RefreshKeepsUnique(dial: Dialer, t: Table<NodeRow>, pinned: set<nat>, sub: nat, links: seq<string>)
    requires KeysBelow(t) && LinksUnique(t) && Refreshed(dial, t, pinned, sub, links).Some?
    ensures var t' := Refreshed(dial, t, pinned, sub, links).value; LinksUnique(t') && KeysBelow(t')
  {
    ImportsKeepUnique(dial, Kept(t, pinned, sub), Some(sub), ArgsOf(links), |links|);
  }

  /** The loop that looks for an import without an error. */
  method HasAnyCandidate(results: seq<Result<nat, ImportError>>) returns (found: bool)
    ensures found <==> exists i :: 0 <= i < |results| && results[i].Ok?
  {
    found := false;
    for k := 0 to |results|
      invariant forall i :: 0 <= i < k ==> results[i].Err?
    {
      if results[k].Ok? {
        return true;
      }
    }
  }

  /** The loop that makes import arguments of the links. */
  method LinksToArgs(links: seq<string>) returns (args: seq<Arg>)
    ensures args == ArgsOf(links)
  {
    args := [];
    for k := 0 to |links|
      invariant args == ArgsOf(links[..k])
    {
      args := args + [Arg(links[k], None)];
    }
    assert links[..|links|] == links;
  }

  /** The node part of `UpdateById`: delete, import, and roll back when nothing was imported. */
  method Refresh(dial: Dialer, t: Table<NodeRow>, pinned: set<nat>, sub: nat, links: seq<string>)
    returns (out: Table<NodeRow>, committed: bool)
    ensures committed <==> Refreshed(dial, t, pinned, sub, links).Some?
    ensures out == if committed then Refreshed(dial, t, pinned, sub, links).value else t
  {
    var kept := Kept(t, pinned, sub);
    var args := LinksToArgs(links);
    var results;
    out, results := Import(dial, kept, false, Some(sub), args);
    var found := HasAnyCandidate(results.value);
    return if found then out else t, found;
  }
}

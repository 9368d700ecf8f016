/** The change detector meets the compiler: the links that a group in the store stands for, and what edits of
    nodes do to them. */
module Recompile {
  import opened Wrappers
  import opened Database
  import opened Tables
  import opened GroupMembers
  import opened NodeImport
  import opened Preloading
  import opened Store
  import opened StoreHistory
  import opened ChangeDetector
  import opened ModifiedSoundness

  // ---- The links of a stored group ----

  predicate AdmitsName(re: Regexp, regex: Option<string>, name: string)
  {
    regex.Some? && regex.value != "" ==> re.matches(regex.value, name)
  }

  /** A node counts for the group: as a member, or because a binding admits it. */
  ghost predicate Counts(re: Regexp, s: Store, g: Group, id: nat)
  {
    id in s.nodes.rows && var row := s.nodes.rows[id];
    id in g.members || (row.subscription.Some? && row.subscription.value in g.bindings &&
                        AdmitsName(re, g.bindings[row.subscription.value], row.name))
  }

  ghost predicate Gives(re: Regexp, s: Store, g: Group, id: nat, link: string)
  {
    Counts(re, s, g, id) && s.nodes.rows[id].link == link
  }

  ghost predicate GroupLink(re: Regexp, s: Store, g: Group, link: string)
  {
    exists id :: Gives(re, s, g, id, link)
  }

  lemma FedStored(re: Regexp, s: Store, g: Group, row: GroupRow, n: NodeRow)
    requires Presents(s, g, row) && Feeds(re, row, n)
    ensures GroupLink(re, s, g, n.link)
  {
    if n in row.solitary {
      var id :| id in g.members && id in s.nodes.rows && s.nodes.rows[id] == n;
      assert Gives(re, s, g, id, n.link);
    } else {
      var b :| b in row.bindings && n in b.nodes && Admits(re, b, n);
      assert BindingStored(s, g, b);
      var sub :| sub in g.bindings && PresentsBinding(s, sub, g.bindings[sub], b);
      var id :| id in s.nodes.rows && s.nodes.rows[id] == n && n.subscription == Some(sub);
      assert Gives(re, s, g, id, n.link);
    }
  }

  lemma StoredFeeds(re: Regexp, s: Store, g: Group, row: GroupRow, id: nat)
    requires Presents(s, g, row) && Counts(re, s, g, id)
    ensures Feeds(re, row, s.nodes.rows[id])
  {
    var n := s.nodes.rows[id];
    if id !in g.members {
      var sub := n.subscription.value;
      assert BindingPresented(s, g, row, sub);
      var b :| b in row.bindings && PresentsBinding(s, sub, g.bindings[sub], b);
      assert n in b.nodes && Admits(re, b, n);
    }
  }

  /** The row that the compiler gets for a group has exactly the links of the stored group. */
  lemma PresentedLinks(re: Regexp, s: Store, g: Group, row: GroupRow, link: string)
    requires Presents(s, g, row)
    ensures FeedsLink(re, row, link) <==> GroupLink(re, s, g, link)
  {
    if n :| Feeds(re, row, n) && n.link == link { FedStored(re, s, g, row, n); }
    if id :| Gives(re, s, g, id, link) { StoredFeeds(re, s, g, row, id); }
  }

  ghost predicate SameLinks(re: Regexp, s0: Store, g0: Group, s: Store, g: Group)
  {
    forall link :: GroupLink(re, s0, g0, link) <==> GroupLink(re, s, g, link)
  }

  // ---- What edits do to them ----

  ghost predicate FromOthers(re: Regexp, s: Store, g: Group, edited: set<nat>, link: string)
  {
    exists id :: id !in edited && Gives(re, s, g, id, link)
  }

  ghost predicate FromEdited(re: Regexp, s: Store, g: Group, edited: set<nat>, link: string)
  {
    exists id :: id in edited && Gives(re, s, g, id, link)
  }

  /** Each link that the edited nodes have won or lost is one that another node gives as well. */
  ghost predicate EditsCancel(re: Regexp, s0: Store, g0: Group, s: Store, g: Group, edited: set<nat>)
  {
    forall link :: FromOthers(re, s, g, edited, link) ||
                   (FromEdited(re, s0, g0, edited, link) <==> FromEdited(re, s, g, edited, link))
  }

  lemma LinkFrom(re: Regexp, s: Store, g: Group, edited: set<nat>, link: string)
    ensures GroupLink(re, s, g, link) <==>
            FromOthers(re, s, g, edited, link) || FromEdited(re, s, g, edited, link)
  {
  }

  lemma OthersGive(re: Regexp, s0: Store, g0: Group, s: Store, g: Group, edited: set<nat>, id: nat, link: string)
    requires SameContent(s0, g0, s, g, edited) && id !in edited
    ensures Gives(re, s0, g0, id, link) <==> Gives(re, s, g, id, link)
  {
    assert Draws(s0, g0, id) <==> Draws(s, g, id);
  }

  /** Groups with the same content have the same links exactly if the edits cancel out. */
  lemma SameContentLinks(re: Regexp, s0: Store, g0: Group, s: Store, g: Group, edited: set<nat>)
    requires SameContent(s0, g0, s, g, edited)
    ensures SameLinks(re, s0, g0, s, g) <==> EditsCancel(re, s0, g0, s, g, edited)
  {
    forall id, link | id !in edited ensures Gives(re, s0, g0, id, link) <==> Gives(re, s, g, id, link) {
      OthersGive(re, s0, g0, s, g, edited, id, link);
    }
    forall link
      ensures GroupLink(re, s0, g0, link) <==>
              FromOthers(re, s, g, edited, link) || FromEdited(re, s0, g0, edited, link)
      ensures GroupLink(re, s, g, link) <==> FromOthers(re, s, g, edited, link) || FromEdited(re, s, g, edited, link)
    {
      LinkFrom(re, s0, g0, edited, link);
      LinkFrom(re, s, g, edited, link);
    }
  }

  lemma UntouchedGive(re: Regexp, dial: Dialer, s: Store, m: Mutation, g: Group, id: nat, link: string)
    requires (m.UpdateNode? || m.TagNode?) && (id != m.id || m.TagNode?)
    ensures Gives(re, s, g, id, link) <==> Gives(re, Apply(dial, s, m), g, id, link)
  {
  }

  /** updateNode and tagNode bump no version, and `Modified` never notices them. They change the links of a
      group exactly if a link that the node wins or loses for it is no other node's; tagNode never does. */
  lemma NodeEditsUnnoticed(re: Regexp, dial: Dialer, s: Store, m: Mutation, g: Group)
    requires m.UpdateNode? || m.TagNode?
    ensures var s' := Apply(dial, s, m);
            && (Unmodified(s') <==> Unmodified(s))
            && (SameLinks(re, s, g, s', g) <==>
                  forall link :: FromOthers(re, s, g, {m.id}, link) ||
                                 (Gives(re, s, g, m.id, link) <==> Gives(re, s', g, m.id, link)))
            && (m.TagNode? ==> SameLinks(re, s, g, s', g))
  {
    var s' := Apply(dial, s, m);
    NodeEdit(dial, s, m);
    NodesUnseen(s, s');
    forall id, link | id != m.id || m.TagNode? ensures Gives(re, s, g, id, link) <==> Gives(re, s', g, id, link) {
      UntouchedGive(re, dial, s, m, g, id, link);
    }
    forall link
      ensures GroupLink(re, s, g, link) <==> FromOthers(re, s, g, {m.id}, link) || Gives(re, s, g, m.id, link)
    {
    }
    forall link
      ensures GroupLink(re, s', g, link) <==> FromOthers(re, s, g, {m.id}, link) || Gives(re, s', g, m.id, link)
    {
    }
  }

  // ---- The recorded groups ----

  /** Every recorded group still has the links that were loaded. */
  ghost predicate LinksKept(re: Regexp, pre: Store, r: Recording, s: Store)
  {
    forall id :: id in r.groups && id in pre.groups.rows && id in s.groups.rows ==>
      SameLinks(re, pre, pre.groups.rows[id], s, s.groups.rows[id])
  }

  /** In every recorded group the edits cancel out. */
  ghost predicate AllCancel(re: Regexp, pre: Store, r: Recording, s: Store, edited: set<nat>)
  {
    forall id :: id in r.groups && id in pre.groups.rows && id in s.groups.rows ==>
      EditsCancel(re, pre, pre.groups.rows[id], s, s.groups.rows[id], edited)
  }

  lemma LinksKeptExactly(re: Regexp, pre: Store, r: Recording, s: Store, edited: set<nat>)
    requires LoadedContent(pre, r, s, edited)
    ensures LinksKept(re, pre, r, s) <==> AllCancel(re, pre, r, s, edited)
    ensures edited == {} ==> LinksKept(re, pre, r, s)
  {
    forall id | id in r.groups
      ensures id in pre.groups.rows && id in s.groups.rows
      ensures var g0, g := pre.groups.rows[id], s.groups.rows[id];
              SameLinks(re, pre, g0, s, g) <==> EditsCancel(re, pre, g0, s, g, edited)
    {
      SameContentLinks(re, pre, pre.groups.rows[id], s, s.groups.rows[id], edited);
    }
  }
}

/** From the store to the compiler's input: what the query with its preloads in `Run` of
    graphql/service/config/mutation_utils.go gives for the groups, and that it meets what the compiler needs. */
module Preloading {
  import opened Wrappers
  import opened Database
  import opened Tables
  import opened Store
  import C = ConfigCompiler

  /** The preloaded binding of a group to a subscription. */
  ghost predicate PresentsBinding(s: Store, sub: nat, regex: Option<string>, b: Binding)
  {
    b.regex == regex && forall row :: row in b.nodes <==>
      exists id :: id in s.nodes.rows && s.nodes.rows[id] == row && row.subscription == Some(sub)
  }

  ghost predicate BindingPresented(s: Store, g: Group, row: GroupRow, sub: nat)
    requires sub in g.bindings
  {
    exists b :: b in row.bindings && PresentsBinding(s, sub, g.bindings[sub], b)
  }

  ghost predicate BindingStored(s: Store, g: Group, b: Binding)
  {
    exists sub :: sub in g.bindings && PresentsBinding(s, sub, g.bindings[sub], b)
  }

  /** The row that the compiler is given for a stored group. */
  ghost predicate Presents(s: Store, g: Group, row: GroupRow)
  {
    && row.name == g.name && row.policy == g.policy && row.params == g.params
    && (forall n :: n in row.solitary <==> exists id :: id in g.members && id in s.nodes.rows && s.nodes.rows[id] == n)
    && (forall b :: b in row.bindings ==> BindingStored(s, g, b))
    && (forall sub :: sub in g.bindings ==> BindingPresented(s, g, row, sub))
  }

  // ---- The whole table ----

  ghost predicate RowOf(s: Store, row: GroupRow)
  {
    row.id in s.groups.rows && Presents(s, s.groups.rows[row.id], row)
  }

  ghost predicate Listed(table: seq<GroupRow>, id: nat)
  {
    exists row :: row in table && row.id == id
  }

  /** One row per group of the store, in any order. */
  ghost predicate TableOf(s: Store, table: seq<GroupRow>)
  {
    && (forall row :: row in table ==> RowOf(s, row))
    && (forall i, j :: 0 <= i < j < |table| ==> table[i].id != table[j].id)
    && (forall id :: id in s.groups.rows ==> Listed(table, id))
  }

  ghost predicate NodeStored(s: Store, row: NodeRow)
  {
    exists id :: id in s.nodes.rows && s.nodes.rows[id] == row
  }

  lemma RowStored(s: Store, g: Group, row: GroupRow, n: NodeRow)
    requires Presents(s, g, row)
    requires n in row.solitary || exists b :: b in row.bindings && n in b.nodes
    ensures NodeStored(s, n)
  {
    if n !in row.solitary {
      var b :| b in row.bindings && n in b.nodes;
      assert BindingStored(s, g, b);
      var sub :| sub in g.bindings && PresentsBinding(s, sub, g.bindings[sub], b);
    }
  }

  lemma TableNodesStored(s: Store, table: seq<GroupRow>, n: NodeRow)
    requires TableOf(s, table) && C.RowIn(table, n)
    ensures NodeStored(s, n)
  {
    var row :| row in table && (n in row.solitary || exists b :: b in row.bindings && n in b.nodes);
    assert RowOf(s, row);
    RowStored(s, s.groups.rows[row.id], row, n);
  }

  lemma TableNames(s: Store, table: seq<GroupRow>)
    requires NamesInv(s.groups) && TableOf(s, table)
    ensures C.NamesUnique(table)
  {
    forall i, j | 0 <= i < j < |table| ensures table[i].name != table[j].name {
      assert RowOf(s, table[i]) && RowOf(s, table[j]);
    }
  }

  /** The compiler's precondition holds of every store that keeps to the schema. */
  lemma TableWellFormed(s: Store, table: seq<GroupRow>)
    requires SchemaInv(s) && TableOf(s, table)
    ensures C.WellFormed(table)
  {
    TableNames(s, table);
    forall row | C.RowIn(table, row) && row.tag.Some? ensures ValidateTag(row.tag.value) {
      TableNodesStored(s, table, row);
    }
    forall q, r | C.RowIn(table, q) && C.RowIn(table, r) && q.tag.Some? && q.tag == r.tag ensures q == r {
      TableNodesStored(s, table, q);
      TableNodesStored(s, table, r);
    }
  }
}

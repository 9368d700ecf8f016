/** Rows of the SQLite tables, as GORM hands them to the services (db/node.go, db/group.go). */
module Database {
  import opened Wrappers

  datatype NodeRow = NodeRow(id: nat, link: string, name: string, tag: Option<string>, subscription: Option<nat>)

  datatype Param = Param(key: string, val: string)

  /** A GroupSubscription with its Subscription.Node list preloaded. */
  datatype Binding = Binding(nodes: seq<NodeRow>, regex: Option<string>)

  /** A Group with policy params and bindings preloaded; `solitary` is its "Node" association. */
  datatype GroupRow = GroupRow(id: nat, name: string, policy: string, params: seq<Param>,
                               bindings: seq<Binding>, solitary: seq<NodeRow>)

  /** The tag pattern of common/validator.go: not empty, and neither ':' nor '\''. */
  predicate ValidateTag(tag: string)
  {
    tag != "" && ':' !in tag && '\'' !in tag
  }

  predicate Letter(c: char)
  {
    'a' <= c <= 'z' || 'A' <= c <= 'Z' || c == '_'
  }

  /** The id pattern of common/validator.go, for names of groups. */
  predicate ValidateId(id: string)
  {
    && id != "" && Letter(id[0])
    && forall i :: 1 <= i < |id| ==> Letter(id[i]) || '0' <= id[i] <= '9' || id[i] in "-/\\^*+.=@$!#%"
  }
}

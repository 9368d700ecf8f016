/** Importing nodes and refreshing a subscription: graphql/service/node/mutation_utils.go,
    db/node_utils.go, and the transaction of `UpdateById` in
    graphql/service/subscription/mutation_utils.go. */
module NodeImport {
  import opened Wrappers
  import opened Database
  import opened Tables

  datatype Arg = Arg(link: string, tag: Option<string>)

  /** dialer.NewFromLink, which is not part of this repository: from link and tag ("" for none) to
      the node's name, or nothing for a link it rejects. */
  type Dialer = (string, string) -> Option<string>

  datatype ImportError = InvalidTag | BadLink | DialError | Duplicated | TagTaken

  predicate Contains(s: string, sub: string)
  {
    exists i :: 0 <= i <= |s| && sub <= s[i..]
  }

  lemma ContainsMeans(s: string, sub: string)
    ensures Contains(s, sub) <==> exists a, b :: s == a + sub + b
  {
    if i :| 0 <= i <= |s| && sub <= s[i..] {
      assert s == s[..i] + sub + s[i + |sub|..];
    }
    if a, b :| s == a + sub + b {
      assert s[|a|..] == sub + b;
    }
  }

  function TagText(tag: Option<string>): string
  {
    if tag.Some? then tag.value else ""
  }

  /** When `importNode` gets past ValidateTag and NewNodeModel. */
  predicate Acceptable(dial: Dialer, arg: Arg)
  {
    && (arg.tag.Some? ==> ValidateTag(arg.tag.value))
    && Contains(arg.link, "://")
    && dial(arg.link, TagText(arg.tag)).Some?
  }

  /** The count query: with a nil subscription it compares with NULL and finds nothing. */
  ghost predicate InSubscription(t: Table<NodeRow>, sub: Option<nat>, link: string)
  {
    sub.Some? && exists id :: id in t.rows && t.rows[id].link == link && t.rows[id].subscription == sub
  }

  ghost predicate TagUsed(t: Table<NodeRow>, tag: Option<string>)
  {
    tag.Some? && exists id :: id in t.rows && t.rows[id].tag == tag
  }

  /** A row of the call: its own id, link, tag and subscription, and the name that the dialer gives it. */
  predicate RowFor(dial: Dialer, sub: Option<nat>, arg: Arg, id: nat, row: NodeRow)
  {
    && row.id == id && row.link == arg.link && row.tag == arg.tag && row.subscription == sub
    && dial(arg.link, match arg.tag case Some(tag) => tag case None => "") == Some(row.name)
  }

  /** One more row, under the next id; every other row is as it was. */
  ghost predicate Added(dial: Dialer, t: Table<NodeRow>, sub: Option<nat>, arg: Arg, t': Table<NodeRow>)
  {
    && t'.next == t.next + 1 && t.next in t'.rows && RowFor(dial, sub, arg, t.next, t'.rows[t.next])
    && (forall id :: id != t.next ==> (id in t'.rows <==> id in t.rows))
    && (forall id :: id != t.next && id in t.rows ==> t'.rows[id] == t.rows[id])
  }

  predicate TagInvalid(arg: Arg)
  {
    arg.tag.Some? && !ValidateTag(arg.tag.value)
  }

  predicate LinkDials(dial: Dialer, arg: Arg)
  {
    Contains(arg.link, "://") && dial(arg.link, match arg.tag case Some(tag) => tag case None => "").Some?
  }

  ghost predicate HasLink(t: Table<NodeRow>, sub: Option<nat>, link: string)
  {
    sub.Some? && exists id :: id in t.rows && t.rows[id].link == link && t.rows[id].subscription == sub
  }

  ghost predicate HasTag(t: Table<NodeRow>, tag: Option<string>)
  {
    tag.Some? && exists id :: id in t.rows && t.rows[id].tag == tag
  }

  /** What each error means; the first that applies is reported. */
  ghost predicate FailsWith(dial: Dialer, t: Table<NodeRow>, sub: Option<nat>, arg: Arg, e: ImportError)
  {
    match e
    case InvalidTag => TagInvalid(arg)
    case BadLink => !TagInvalid(arg) && !Contains(arg.link, "://")
    case DialError => !TagInvalid(arg) && Contains(arg.link, "://") && !LinkDials(dial, arg)
    case Duplicated => !TagInvalid(arg) && LinkDials(dial, arg) && HasLink(t, sub, arg.link)
    case TagTaken => !TagInvalid(arg) && LinkDials(dial, arg) && !HasLink(t, sub, arg.link) && HasTag(t, arg.tag)
  }

  /** The outcome `r` of importing `arg` into `t`, and the table after it. */
  ghost predicate ImportedOne(dial: Dialer, t: Table<NodeRow>, sub: Option<nat>, arg: Arg, t': Table<NodeRow>,
                              r: Result<nat, ImportError>)
  {
    match r
    case Ok(id) =>
      && id == t.next && Added(dial, t, sub, arg, t')
      && !TagInvalid(arg) && LinkDials(dial, arg) && !HasLink(t, sub, arg.link) && !HasTag(t, arg.tag)
    case Err(e) => t' == t && FailsWith(dial, t, sub, arg, e)
  }

  /** `importNode`, checks in their order; the unique index on tags makes the insert fail. */
  method ImportNode(dial: Dialer, t: Table<NodeRow>, sub: Option<nat>, arg: Arg)
    returns (out: Table<NodeRow>, r: Result<nat, ImportError>)
    ensures (out, r) == Imported(dial, t, sub, arg)
    ensures ImportedOne(dial, t, sub, arg, out, r)
  {
    out := t;
    if arg.tag.Some? && !ValidateTag(arg.tag.value) {
      return t, Err(InvalidTag);
    }
    if !Contains(arg.link, "://") {
      return t, Err(BadLink);
    }
    var name := dial(arg.link, TagText(arg.tag));
    if name.None? {
      return t, Err(DialError);
    }
    var m := NodeRow(t.next, arg.link, name.value, arg.tag, sub);
    var matches := set id | id in t.rows && t.rows[id].link == arg.link && sub.Some? && t.rows[id].subscription == sub;
    if |matches| > 0 {
      assert exists id :: id in matches;
      return t, Err(Duplicated);
    }
    assert matches == {};
    assert forall id :: id in t.rows ==> id !in matches;
    if arg.tag.Some? && exists id :: id in t.rows && t.rows[id].tag == arg.tag {
      return t, Err(TagTaken);
    }
    return Table(t.rows[t.next := m], t.next + 1), Ok(t.next);
  }

  /** What one import does to the table, and its outcome: the new id or the reason against it. */
  ghost function Imported(dial: Dialer, t: Table<NodeRow>, sub: Option<nat>, arg: Arg): (Table<NodeRow>,
                          Result<nat, ImportError>)
  {
    if arg.tag.Some? && !ValidateTag(arg.tag.value) then (t, Err(InvalidTag))
    else if !Contains(arg.link, "://") then (t, Err(BadLink))
    else if dial(arg.link, TagText(arg.tag)).None? then (t, Err(DialError))
    else if InSubscription(t, sub, arg.link) then (t, Err(Duplicated))
    else if TagUsed(t, arg.tag) then (t, Err(TagTaken))
    else
      var m := NodeRow(t.next, arg.link, dial(arg.link, TagText(arg.tag)).value, arg.tag, sub);
      (Table(t.rows[t.next := m], t.next + 1), Ok(t.next))
  }

  /** The first `n` arguments imported one after the other. */
  ghost function TableAfter(dial: Dialer, t: Table<NodeRow>, sub: Option<nat>, args: seq<Arg>, n: nat): Table<NodeRow>
    requires n <= |args|
  {
    if n == 0 then t else Imported(dial, TableAfter(dial, t, sub, args, n - 1), sub, args[n - 1]).0
  }

  ghost function Outcome(dial: Dialer, t: Table<NodeRow>, sub: Option<nat>, args: seq<Arg>, i: nat): Result<nat,
                         ImportError>
    requires i < |args|
  {
    Imported(dial, TableAfter(dial, t, sub, args, i), sub, args[i]).1
  }

  /** Errors other than "node already exists". */
  predicate Fatal(r: Result<nat, ImportError>)
  {
    r.Err? && r.error != Duplicated
  }

  /** `Import`: one result per argument, in order; with `abortError` it stops at the first error other
      than a duplicate, and the caller rolls back. */
  method Import(dial: Dialer, t: Table<NodeRow>, abortError: bool, sub: Option<nat>, args: seq<Arg>)
    returns (out: Table<NodeRow>, rs: Option<seq<Result<nat, ImportError>>>)
    ensures rs.None? <==> abortError && exists i :: 0 <= i < |args| && Fatal(Outcome(dial, t, sub, args, i))
    ensures rs.None? ==> exists i :: 0 <= i < |args| && Outcome(dial, t, sub, args, i).Err? &&
                                     Outcome(dial, t, sub, args, i).error != Duplicated
    ensures rs.Some? && abortError ==>
              forall i :: 0 <= i < |rs.value| ==> rs.value[i].Ok? || rs.value[i] == Err(Duplicated)
    ensures rs.Some? ==> out == TableAfter(dial, t, sub, args, |args|) && |rs.value| == |args|
    ensures rs.Some? ==> forall i :: 0 <= i < |args| ==> rs.value[i] == Outcome(dial, t, sub, args, i)
    ensures rs.Some? && KeysBelow(t) ==> ImportedList(dial, t, sub, args, rs.value, out)
  {
    out := t;
    var results := [];
    for k := 0 to |args|
      invariant out == TableAfter(dial, t, sub, args, k) && |results| == k
      invariant forall i :: 0 <= i < k ==> results[i] == Outcome(dial, t, sub, args, i)
      invariant abortError ==> forall i :: 0 <= i < k ==> !Fatal(Outcome(dial, t, sub, args, i))
    {
      var r;
      out, r := ImportNode(dial, out, sub, args[k]);
      assert r == Outcome(dial, t, sub, args, k);
      if abortError && Fatal(r) {
        return out, None;
      }
      results := results + [r];
    }
    if KeysBelow(t) { ImportedAll(dial, t, sub, args, results); }
    return out, Some(results);
  }

  // ---- Entry by entry ----

  /** Entry `i` came after the entries before it: each successful one has a row of its own in `t'`, under an
      id above those of the rows before and of earlier entries. */
  predicate EntryStored(dial: Dialer, t: Table<NodeRow>, sub: Option<nat>, args: seq<Arg>,
                        rs: seq<Result<nat, ImportError>>, i: nat, t': Table<NodeRow>)
    requires i < |rs| == |args|
  {
    rs[i].Ok? ==>
      && t.next <= rs[i].value < t'.next && rs[i].value in t'.rows
      && RowFor(dial, sub, args[i], rs[i].value, t'.rows[rs[i].value])
      && forall j :: 0 <= j < i && rs[j].Ok? ==> rs[j].value < rs[i].value
  }

  predicate CameFrom(rs: seq<Result<nat, ImportError>>, id: nat)
  {
    exists i :: 0 <= i < |rs| && rs[i] == Ok(id)
  }

  /** The table after an import with these results: every successful entry is stored, tagged or not, old rows
      are as they were, and there are no others. */
  ghost predicate ImportedList(dial: Dialer, t: Table<NodeRow>, sub: Option<nat>, args: seq<Arg>,
                               rs: seq<Result<nat, ImportError>>, t': Table<NodeRow>)
  {
    && |rs| == |args| && t.next <= t'.next && KeysBelow(t')
    && (forall i :: 0 <= i < |args| ==> EntryStored(dial, t, sub, args, rs, i, t'))
    && (forall id :: id in t.rows ==> id in t'.rows && t'.rows[id] == t.rows[id])
    && (forall id :: id in t'.rows && id !in t.rows ==> CameFrom(rs, id))
  }

  lemma OneImported(dial: Dialer, t: Table<NodeRow>, sub: Option<nat>, arg: Arg)
    ensures var (t', r) := Imported(dial, t, sub, arg); ImportedOne(dial, t, sub, arg, t', r)
  {
  }

  lemma EntryStays(dial: Dialer, t: Table<NodeRow>, sub: Option<nat>, args: seq<Arg>,
                   rs: seq<Result<nat, ImportError>>, t': Table<NodeRow>, arg: Arg, t'': Table<NodeRow>,
                   r: Result<nat, ImportError>, i: nat)
    requires ImportedList(dial, t, sub, args, rs, t') && ImportedOne(dial, t', sub, arg, t'', r) && i <= |rs|
    ensures EntryStored(dial, t, sub, args + [arg], rs + [r], i, t'')
  {
    if i < |rs| {
      assert EntryStored(dial, t, sub, args, rs, i, t');
    } else if r.Ok? {
      forall j | 0 <= j < |rs| && rs[j].Ok? ensures rs[j].value < r.value {
        assert EntryStored(dial, t, sub, args, rs, j, t');
      }
    }
  }

  lemma RowsStay(dial: Dialer, t: Table<NodeRow>, sub: Option<nat>, args: seq<Arg>,
                 rs: seq<Result<nat, ImportError>>, t': Table<NodeRow>, arg: Arg, t'': Table<NodeRow>,
                 r: Result<nat, ImportError>)
    requires KeysBelow(t) && ImportedList(dial, t, sub, args, rs, t') && ImportedOne(dial, t', sub, arg, t'', r)
    ensures t.next <= t''.next && KeysBelow(t'')
    ensures forall id :: id in t.rows ==> id in t''.rows && t''.rows[id] == t.rows[id]
    ensures forall id :: id in t''.rows && id !in t.rows ==> CameFrom(rs + [r], id)
  {
    var rs' := rs + [r];
    forall id | id in t''.rows && id !in t.rows ensures CameFrom(rs', id) {
      if id in t'.rows {
        assert CameFrom(rs, id);
        var i :| 0 <= i < |rs| && rs[i] == Ok(id);
        assert rs'[i] == Ok(id);
      } else {
        assert rs'[|rs|] == Ok(id);
      }
    }
  }

  lemma ImportedNext(dial: Dialer, t: Table<NodeRow>, sub: Option<nat>, args: seq<Arg>,
                     rs: seq<Result<nat, ImportError>>, t': Table<NodeRow>, arg: Arg, t'': Table<NodeRow>,
                     r: Result<nat, ImportError>)
    requires KeysBelow(t) && ImportedList(dial, t, sub, args, rs, t') && ImportedOne(dial, t', sub, arg, t'', r)
    ensures ImportedList(dial, t, sub, args + [arg], rs + [r], t'')
  {
    RowsStay(dial, t, sub, args, rs, t', arg, t'', r);
    forall i | 0 <= i < |args| + 1 ensures EntryStored(dial, t, sub, args + [arg], rs + [r], i, t'') {
      EntryStays(dial, t, sub, args, rs, t', arg, t'', r, i);
    }
  }

  lemma ImportedNone(dial: Dialer, t: Table<NodeRow>, sub: Option<nat>)
    requires KeysBelow(t)
    ensures ImportedList(dial, t, sub, [], [], t)
  {
  }

  lemma {:induction false} ImportedUpTo(dial: Dialer, t: Table<NodeRow>, sub: Option<nat>, args: seq<Arg>,
                                        rs: seq<Result<nat, ImportError>>, n: nat)
    requires KeysBelow(t) && n <= |args| == |rs|
    requires forall i :: 0 <= i < n ==> rs[i] == Outcome(dial, t, sub, args, i)
    ensures ImportedList(dial, t, sub, args[..n], rs[..n], TableAfter(dial, t, sub, args, n))
  {
    if n == 0 {
      assert args[..0] == [] && rs[..0] == [];
      ImportedNone(dial, t, sub);
    } else {
      ImportedUpTo(dial, t, sub, args, rs, n - 1);
      ImportedAt(dial, t, sub, args, rs, n - 1);
    }
  }

  lemma ImportedAt(dial: Dialer, t: Table<NodeRow>, sub: Option<nat>, args: seq<Arg>,
                   rs: seq<Result<nat, ImportError>>, n: nat)
    requires KeysBelow(t) && n < |args| == |rs| && rs[n] == Outcome(dial, t, sub, args, n)
    requires ImportedList(dial, t, sub, args[..n], rs[..n], TableAfter(dial, t, sub, args, n))
    ensures ImportedList(dial, t, sub, args[..n + 1], rs[..n + 1], TableAfter(dial, t, sub, args, n + 1))
  {
    var before := TableAfter(dial, t, sub, args, n);
    assert args[..n + 1] == args[..n] + [args[n]] && rs[..n + 1] == rs[..n] + [rs[n]];
    OneImported(dial, before, sub, args[n]);
    ImportedNext(dial, t, sub, args[..n], rs[..n], before, args[n], TableAfter(dial, t, sub, args, n + 1), rs[n]);
  }

  /** All entries of an import that ran to its end, tagged or not. */
  lemma ImportedAll(dial: Dialer, t: Table<NodeRow>, sub: Option<nat>, args: seq<Arg>,
                    rs: seq<Result<nat, ImportError>>)
    requires KeysBelow(t) && |args| == |rs| && forall i :: 0 <= i < |args| ==> rs[i] == Outcome(dial, t, sub, args, i)
    ensures ImportedList(dial, t, sub, args, rs, TableAfter(dial, t, sub, args, |args|))
  {
    ImportedUpTo(dial, t, sub, args, rs, |args|);
    assert args[..|args|] == args && rs[..|rs|] == rs;
  }

  // ---- Link uniqueness ----

  predicate SameEntry(r: NodeRow, s: NodeRow)
  {
    r.subscription.Some? && r.subscription == s.subscription && r.link == s.link
  }

  /** Within a subscription, a link belongs to one node. */
  ghost predicate LinksUnique(t: Table<NodeRow>)
  {
    forall i, j :: i in t.rows && j in t.rows && SameEntry(t.rows[i], t.rows[j]) ==> i == j
  }

  lemma ImportKeepsUnique(dial: Dialer, t: Table<NodeRow>, sub: Option<nat>, arg: Arg)
    requires LinksUnique(t) && KeysBelow(t)
    ensures var t' := Imported(dial, t, sub, arg).0; LinksUnique(t') && KeysBelow(t')
  {
  }

  lemma {:induction false} ImportsKeepUnique(dial: Dialer, t: Table<NodeRow>, sub: Option<nat>, args: seq<Arg>, n: nat)
    requires n <= |args| && LinksUnique(t) && KeysBelow(t)
    ensures var t' := TableAfter(dial, t, sub, args, n); LinksUnique(t') && KeysBelow(t')
  {
    if n > 0 {
      ImportsKeepUnique(dial, t, sub, args, n - 1);
      ImportKeepsUnique(dial, TableAfter(dial, t, sub, args, n - 1), sub, args[n - 1]);
    }
  }

  // ---- What an import of untagged links does ----

  ghost predicate Untagged(args: seq<Arg>)
  {
    forall i :: 0 <= i < |args| ==> args[i].tag.None?
  }

  ghost predicate ListedValid(dial: Dialer, args: seq<Arg>, n: nat, link: string)
    requires n <= |args|
  {
    exists i :: 0 <= i < n && args[i].link == link && Acceptable(dial, args[i])
  }

  /** A row that the import created: a listed valid link that the subscription did not have, untagged, under
      the dialer's name. */
  ghost predicate NewRow(dial: Dialer, t: Table<NodeRow>, sub: nat, args: seq<Arg>, n: nat, row: NodeRow)
    requires n <= |args|
  {
    && row.tag.None? && dial(row.link, "") == Some(row.name)
    && row.subscription == Some(sub) && ListedValid(dial, args, n, row.link) && !InSubscription(t, Some(sub), row.link)
  }

  /** After `n` arguments: old rows are untouched, new rows have new ids and are as NewRow says, and the
      subscription's links are the old ones together with the valid ones listed. */
  ghost predicate ImportedSo(dial: Dialer, t: Table<NodeRow>, sub: nat, args: seq<Arg>, n: nat, t': Table<NodeRow>)
    requires n <= |args|
  {
    && t.next <= t'.next
    && (forall id :: id in t.rows ==> id in t'.rows && t'.rows[id] == t.rows[id])
    && (forall id :: id in t'.rows && id !in t.rows ==> t.next <= id && NewRow(dial, t, sub, args, n, t'.rows[id]))
    && (forall link :: InSubscription(t', Some(sub), link) <==>
                       InSubscription(t, Some(sub), link) || ListedValid(dial, args, n, link))
  }

  lemma ListedStep(dial: Dialer, args: seq<Arg>, n: nat, link: string)
    requires n < |args|
    ensures ListedValid(dial, args, n + 1, link) <==>
            ListedValid(dial, args, n, link) || (args[n].link == link && Acceptable(dial, args[n]))
  {
    if i :| 0 <= i < n + 1 && args[i].link == link && Acceptable(dial, args[i]) && i < n {
      assert ListedValid(dial, args, n, link);
    }
  }

  lemma InsertLinks(t: Table<NodeRow>, sub: nat, m: NodeRow, link: string)
    requires KeysBelow(t) && m.subscription == Some(sub)
    ensures InSubscription(Insert(t, m), Some(sub), link) <==>
            InSubscription(t, Some(sub), link) || link == m.link
  {
    var t' := Insert(t, m);
    assert t'.rows[t.next] == m;
    if id :| id in t.rows && t.rows[id].link == link && t.rows[id].subscription == Some(sub) {
      assert t'.rows[id] == t.rows[id];
    }
  }

  lemma ListedSame(dial: Dialer, t: Table<NodeRow>, sub: nat, args: seq<Arg>, n: nat, t': Table<NodeRow>)
    requires n < |args| && ImportedSo(dial, t, sub, args, n, t')
    requires Acceptable(dial, args[n]) ==> InSubscription(t', Some(sub), args[n].link)
    ensures ImportedSo(dial, t, sub, args, n + 1, t')
  {
    forall link ensures InSubscription(t', Some(sub), link) <==>
                        InSubscription(t, Some(sub), link) || ListedValid(dial, args, n + 1, link) {
      ListedStep(dial, args, n, link);
    }
    forall id | id in t'.rows && id !in t.rows ensures NewRow(dial, t, sub, args, n + 1, t'.rows[id]) {
      assert NewRow(dial, t, sub, args, n, t'.rows[id]);
      ListedStep(dial, args, n, t'.rows[id].link);
    }
  }

  lemma ListedNew(dial: Dialer, t: Table<NodeRow>, sub: nat, args: seq<Arg>, n: nat, t': Table<NodeRow>, m: NodeRow)
    requires n < |args| && KeysBelow(t) && KeysBelow(t') && ImportedSo(dial, t, sub, args, n, t')
    requires Acceptable(dial, args[n]) && !InSubscription(t', Some(sub), args[n].link)
    requires m.subscription == Some(sub) && m.link == args[n].link && m.tag.None? && dial(m.link, "") == Some(m.name)
    ensures ImportedSo(dial, t, sub, args, n + 1, Insert(t', m))
  {
    var t'' := Insert(t', m);
    forall link ensures InSubscription(t'', Some(sub), link) <==>
                        InSubscription(t, Some(sub), link) || ListedValid(dial, args, n + 1, link) {
      InsertLinks(t', sub, m, link);
      ListedStep(dial, args, n, link);
    }
    forall id | id in t''.rows && id !in t.rows ensures NewRow(dial, t, sub, args, n + 1, t''.rows[id]) {
      ListedStep(dial, args, n, t''.rows[id].link);
      if id != t'.next { assert NewRow(dial, t, sub, args, n, t'.rows[id]); }
    }
  }

  lemma ImportedSoStep(dial: Dialer, t: Table<NodeRow>, sub: nat, args: seq<Arg>, n: nat, t': Table<NodeRow>)
    requires n < |args| && args[n].tag.None? && KeysBelow(t) && KeysBelow(t') && ImportedSo(dial, t, sub, args, n, t')
    ensures ImportedSo(dial, t, sub, args, n + 1, Imported(dial, t', Some(sub), args[n]).0)
  {
    var arg := args[n];
    if Acceptable(dial, arg) && !InSubscription(t', Some(sub), arg.link) {
      var m := NodeRow(t'.next, arg.link, dial(arg.link, TagText(arg.tag)).value, arg.tag, Some(sub));
      assert Imported(dial, t', Some(sub), arg).0 == Insert(t', m);
      ListedNew(dial, t, sub, args, n, t', m);
    } else {
      assert Imported(dial, t', Some(sub), arg).0 == t';
      ListedSame(dial, t, sub, args, n, t');
    }
  }

  lemma {:induction false} KeysStayBelow(dial: Dialer, t: Table<NodeRow>, sub: Option<nat>, args: seq<Arg>, n: nat)
    requires n <= |args| && KeysBelow(t)
    ensures KeysBelow(TableAfter(dial, t, sub, args, n))
  {
    if n > 0 { KeysStayBelow(dial, t, sub, args, n - 1); }
  }

  lemma TableAfterStep(dial: Dialer, t: Table<NodeRow>, sub: Option<nat>, args: seq<Arg>, n: nat)
    requires n < |args|
    ensures TableAfter(dial, t, sub, args, n + 1) == Imported(dial, TableAfter(dial, t, sub, args, n), sub, args[n]).0
  {
  }

  lemma ImportedSoNone(dial: Dialer, t: Table<NodeRow>, sub: nat, args: seq<Arg>)
    ensures ImportedSo(dial, t, sub, args, 0, t)
  {
  }

  lemma {:induction false} ImportedSoAll(dial: Dialer, t: Table<NodeRow>, sub: nat, args: seq<Arg>, n: nat)
    requires n <= |args| && Untagged(args) && KeysBelow(t)
    ensures ImportedSo(dial, t, sub, args, n, TableAfter(dial, t, Some(sub), args, n))
  {
    if n == 0 {
      ImportedSoNone(dial, t, sub, args);
    } else {
      var before := TableAfter(dial, t, Some(sub), args, n - 1);
      ImportedSoAll(dial, t, sub, args, n - 1);
      KeysStayBelow(dial, t, Some(sub), args, n - 1);
      ImportedSoStep(dial, t, sub, args, n - 1, before);
      TableAfterStep(dial, t, Some(sub), args, n - 1);
    }
  }

  /** Entry `i` succeeds iff its link is valid, not already in the subscription, and not listed before. */
  lemma ImportExactly(dial: Dialer, t: Table<NodeRow>, sub: nat, args: seq<Arg>, i: nat)
    requires Untagged(args) && KeysBelow(t) && i < |args|
    ensures Outcome(dial, t, Some(sub), args, i).Ok? <==>
            && Acceptable(dial, args[i])
            && !InSubscription(t, Some(sub), args[i].link)
            && forall j :: 0 <= j < i ==> args[j].link != args[i].link
  {
    ImportedSoAll(dial, t, sub, args, i);
    forall j | 0 <= j < i && args[j].link == args[i].link
      ensures Acceptable(dial, args[i]) ==> ListedValid(dial, args, i, args[i].link)
    {
      assert args[j].tag.None? && args[i].tag.None?;
      assert args[j] == args[i];
    }
  }
}

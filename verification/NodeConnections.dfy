/** Cursor pagination of nodes: graphql/service/node/connection_resolver.go. */
module NodeConnections {
  import opened Wrappers
  import opened Database
  import opened Cursors

  /** The base query's arguments, and what a request made of them found. */
  datatype Query = Query(id: Option<Uint>, subscription: Option<Uint>)
  datatype Connection = Connection(base: Query, models: seq<NodeRow>)
  datatype PageInfo = PageInfo(startCursor: Option<string>, endCursor: Option<string>, hasNextPage: bool)

  /** The rows of the table in the order in which a query scans it, that of their ids, which are
      SQLite's positive 64-bit row ids. */
  ghost predicate Scan(rows: seq<NodeRow>)
  {
    && (forall i :: 0 <= i < |rows| ==> rows[i].id <= MAX_INT)
    && (forall i, j :: 0 <= i < j < |rows| ==> rows[i].id < rows[j].id)
  }

  /** Without a subscription the query is for nodes that have none. */
  predicate Matches(q: Query, row: NodeRow)
  {
    (q.id.Some? ==> row.id == q.id.value) && row.subscription == q.subscription
  }

  function Base(q: Query, rows: seq<NodeRow>): seq<NodeRow>
  {
    if rows == [] then []
    else
      var n := |rows| - 1;
      Base(q, rows[..n]) + if Matches(q, rows[n]) then [rows[n]] else []
  }

  function Above(rows: seq<NodeRow>, after: nat): seq<NodeRow>
  {
    if rows == [] then []
    else
      var n := |rows| - 1;
      Above(rows[..n], after) + if rows[n].id > after then [rows[n]] else []
  }

  /** GORM's Limit: a negative number is no limit. */
  function Limit(rows: seq<NodeRow>, first: int): seq<NodeRow>
  {
    if 0 <= first < |rows| then rows[..first] else rows
  }

  /** An optional cursor: nothing if it is given and cannot be decoded. */
  function DecodeOptional(cc: Codec, cursor: Option<string>): Option<Option<Uint>>
  {
    match cursor
    case None => Some(None)
    case Some(c) => if cc.decode(c).Some? then Some(cc.decode(c)) else None
  }

  /** What a request finds, or nothing if one of its cursors is bad. */
  function Connected(cc: Codec, rows: seq<NodeRow>, id: Option<string>, sub: Option<string>, first: Option<int>,
                     after: Option<string>): Option<Connection>
  {
    if DecodeOptional(cc, id).None? || DecodeOptional(cc, sub).None? || DecodeOptional(cc, after).None? then None
    else
      var base := Query(DecodeOptional(cc, id).value, DecodeOptional(cc, sub).value);
      var from := DecodeOptional(cc, after).value;
      var q := Base(base, rows);
      var above := if from.Some? then Above(q, from.value) else q;
      Some(Connection(base, if first.Some? then Limit(above, first.value) else above))
  }

  /** The base query finds exactly the rows that match it. */
  lemma {:induction false} BaseExactly(q: Query, rows: seq<NodeRow>, row: NodeRow)
    ensures row in Base(q, rows) <==> row in rows && Matches(q, row)
  {
    if rows != [] {
      var n := |rows| - 1;
      BaseExactly(q, rows[..n], row);
      assert rows == rows[..n] + [rows[n]];
    }
  }

  lemma {:induction false} BaseScan(q: Query, rows: seq<NodeRow>)
    requires Scan(rows)
    ensures Scan(Base(q, rows))
  {
    if rows != [] {
      var n := |rows| - 1;
      BaseScan(q, rows[..n]);
      var front := Base(q, rows[..n]);
      forall i | 0 <= i < |front| ensures front[i].id < rows[n].id {
        BaseExactly(q, rows[..n], front[i]);
      }
    }
  }

  lemma {:induction false} AboveExactly(rows: seq<NodeRow>, after: nat, row: NodeRow)
    ensures row in Above(rows, after) <==> row in rows && row.id > after
  {
    if rows != [] {
      var n := |rows| - 1;
      AboveExactly(rows[..n], after, row);
      assert rows == rows[..n] + [rows[n]];
    }
  }

  lemma {:induction false} AboveScan(rows: seq<NodeRow>, after: nat)
    requires Scan(rows)
    ensures Scan(Above(rows, after))
  {
    if rows != [] {
      var n := |rows| - 1;
      AboveScan(rows[..n], after);
      var front := Above(rows[..n], after);
      forall i | 0 <= i < |front| ensures front[i].id < rows[n].id {
        AboveExactly(rows[..n], after, front[i]);
      }
    }
  }

  // ---- What a request asks for, argument by argument ----

  predicate Undecodable(cc: Codec, cursor: Option<string>)
  {
    cursor.Some? && cc.decode(cursor.value).None?
  }

  /** The row with the given id, if one is given; of the given subscription, or of none. */
  predicate AskedFor(cc: Codec, id: Option<string>, sub: Option<string>, row: NodeRow)
  {
    && (id.Some? ==> cc.decode(id.value) == Some(row.id))
    && (match row.subscription
        case Some(n) => sub.Some? && cc.decode(sub.value).Some? && cc.decode(sub.value).value == n
        case None => sub.None?)
  }

  predicate Behind(cc: Codec, after: Option<string>, row: NodeRow)
  {
    after.Some? ==> cc.decode(after.value).Some? && row.id > cc.decode(after.value).value
  }

  /** `models` are all the rows that `wanted` holds of, or as many as `first` allows, those with the smallest
      ids, in the order of their ids. */
  ghost predicate PageOf(rows: seq<NodeRow>, wanted: NodeRow -> bool, first: Option<int>, models: seq<NodeRow>)
  {
    && (forall i, j :: 0 <= i < j < |models| ==> models[i].id < models[j].id)
    && (forall m :: m in models ==> m in rows && wanted(m))
    && (first.Some? && first.value >= 0 ==> |models| <= first.value)
    && (forall row :: row in rows && wanted(row) && row !in models ==>
          && first.Some? && |models| == first.value
          && forall m :: m in models ==> m.id < row.id)
  }

  lemma LimitPage(rows: seq<NodeRow>, wanted: NodeRow -> bool, above: seq<NodeRow>, first: Option<int>)
    requires Scan(above) && forall row :: row in above <==> row in rows && wanted(row)
    ensures PageOf(rows, wanted, first, if first.Some? then Limit(above, first.value) else above)
  {
    var models := if first.Some? then Limit(above, first.value) else above;
    assert forall m :: m in models ==> m in above;
    forall row | row in rows && wanted(row) && row !in models
      ensures first.Some? && |models| == first.value && forall m :: m in models ==> m.id < row.id
    {
      var j :| 0 <= j < |above| && above[j] == row;
      assert first.Some? && models == above[..first.value];
      assert j >= first.value;
    }
  }

  lemma BaseAsked(cc: Codec, id: Option<string>, sub: Option<string>, base: Query, rows: seq<NodeRow>)
    requires !Undecodable(cc, id) && !Undecodable(cc, sub)
    requires base.id == (if id.Some? then cc.decode(id.value) else None)
    requires base.subscription == (if sub.Some? then cc.decode(sub.value) else None)
    ensures forall row :: row in Base(base, rows) <==> row in rows && AskedFor(cc, id, sub, row)
    ensures Scan(rows) ==> Scan(Base(base, rows))
  {
    forall row ensures row in Base(base, rows) <==> row in rows && AskedFor(cc, id, sub, row) {
      BaseExactly(base, rows, row);
    }
    if Scan(rows) { BaseScan(base, rows); }
  }

  lemma AboveBehind(cc: Codec, after: Option<string>, q: seq<NodeRow>, from: nat)
    requires after.Some? && cc.decode(after.value) == Some(from)
    ensures forall row :: row in Above(q, from) <==> row in q && Behind(cc, after, row)
    ensures Scan(q) ==> Scan(Above(q, from))
  {
    forall row ensures row in Above(q, from) <==> row in q && Behind(cc, after, row) {
      AboveExactly(q, from, row);
    }
    if Scan(q) { AboveScan(q, from); }
  }

  method NewConnection(cc: Codec, rows: seq<NodeRow>, id: Option<string>, sub: Option<string>, first: Option<int>,
                       after: Option<string>)
    returns (r: Option<Connection>)
    ensures r == Connected(cc, rows, id, sub, first, after)
    ensures r.None? <==> Undecodable(cc, id) || Undecodable(cc, sub) || Undecodable(cc, after)
    ensures r.Some? ==>
              forall row :: row in Base(r.value.base, rows) <==> row in rows && AskedFor(cc, id, sub, row)
    ensures r.Some? && (first.None? || first.value < 0) ==>
              forall row :: row in r.value.models <==>
                row in rows && AskedFor(cc, id, sub, row) && Behind(cc, after, row)
    ensures r.Some? && Scan(rows) ==>
              PageOf(rows, row => AskedFor(cc, id, sub, row) && Behind(cc, after, row), first, r.value.models)
  {
    var base := Query(None, None);
    if id.Some? {
      var d := cc.decode(id.value);
      if d.None? { return None; }
      base := base.(id := d);
    }
    if sub.Some? {
      var d := cc.decode(sub.value);
      if d.None? { return None; }
      base := base.(subscription := d);
    }
    var q := Base(base, rows);
    BaseAsked(cc, id, sub, base, rows);
    if after.Some? {
      var d := cc.decode(after.value);
      if d.None? { return None; }
      AboveBehind(cc, after, q, d.value);
      q := Above(q, d.value);
    }
    if Scan(rows) { LimitPage(rows, row => AskedFor(cc, id, sub, row) && Behind(cc, after, row), q, first); }
    if first.Some? {
      q := Limit(q, first.value);
    }
    return Some(Connection(base, q));
  }

  /** Go's conversion to int32. */
  function Int32(n: nat): int
  {
    var low := n % 0x1_0000_0000;
    if low < 0x8000_0000 then low else low - 0x1_0000_0000
  }

  lemma Int32Exactly(n: nat)
    ensures Int32(n) == n <==> n < 0x8000_0000
  {
  }

  /** `int32(count)`. */
  function TotalCount(c: Connection, rows: seq<NodeRow>): int
  {
    Int32(|Base(c.base, rows)|)
  }

  method Edges(c: Connection) returns (rs: seq<NodeRow>)
    ensures rs == c.models
  {
    rs := [];
    for i := 0 to |c.models|
      invariant rs == c.models[..i]
    {
      rs := rs + [c.models[i]];
    }
  }

  /** The last page ends below the last row of the base query. */
  predicate HasNext(models: seq<NodeRow>, q: seq<NodeRow>)
  {
    models != [] && q != [] && models[|models| - 1].id < q[|q| - 1].id
  }

  /** Ids are of Go's type uint. */
  ghost predicate UintIds(rows: seq<NodeRow>)
  {
    forall i :: 0 <= i < |rows| ==> rows[i].id < TWO_64
  }

  /** The table may have changed since the request; then there may be no last row, which is an error. */
  function PageInfoOf(cc: Codec, c: Connection, rows: seq<NodeRow>): Option<PageInfo>
    requires UintIds(c.models)
  {
    var n := |c.models|;
    if n == 0 then Some(PageInfo(None, None, false))
    else if Base(c.base, rows) == [] then None
    else Some(PageInfo(Some(cc.encode(c.models[0].id)), Some(cc.encode(c.models[n - 1].id)),
                       HasNext(c.models, Base(c.base, rows))))
  }

  /** The page's cursors are those of its first and its last row; there is a next page exactly if some row of the
      base query lies behind the last. */
  lemma PageInfoMeans(cc: Codec, c: Connection, rows: seq<NodeRow>)
    requires UintIds(c.models) && Scan(rows) && RoundTrips(cc) && forall m :: m in c.models ==> m.id <= MAX_INT
    ensures c.models == [] ==> PageInfoOf(cc, c, rows) == Some(PageInfo(None, None, false))
    ensures PageInfoOf(cc, c, rows).None? <==> c.models != [] && forall row :: row in rows ==> !Matches(c.base, row)
    ensures c.models != [] && PageInfoOf(cc, c, rows).Some? ==>
              var (info, last) := (PageInfoOf(cc, c, rows).value, c.models[|c.models| - 1].id);
              && info.startCursor.Some? && cc.decode(info.startCursor.value) == Some(c.models[0].id)
              && info.endCursor.Some? && cc.decode(info.endCursor.value) == Some(last)
              && (info.hasNextPage <==> exists row :: row in rows && Matches(c.base, row) && row.id > last)
  {
    var base := Base(c.base, rows);
    forall row ensures row in base <==> row in rows && Matches(c.base, row) {
      BaseExactly(c.base, rows, row);
    }
    BaseScan(c.base, rows);
    if base != [] { assert base[|base| - 1] in base; }
    if c.models != [] {
      assert c.models[0] in c.models && c.models[|c.models| - 1] in c.models;
    }
  }

  // ---- Positions in the list that the base query gives ----

  lemma {:induction false} AboveIsSuffix(rows: seq<NodeRow>, after: nat, p: nat)
    requires p <= |rows|
    requires forall i :: 0 <= i < |rows| ==> (rows[i].id > after <==> p <= i)
    ensures Above(rows, after) == rows[p..]
  {
    if rows != [] {
      var n := |rows| - 1;
      if p <= n {
        AboveIsSuffix(rows[..n], after, p);
        assert rows[p..] == rows[..n][p..] + [rows[n]];
      } else {
        AboveIsSuffix(rows[..n], after, n);
      }
    }
  }

  function Min(a: nat, b: nat): nat { if a < b then a else b }

  /** The `k` rows from position `p` on, or as many as there are. */
  function Slice(base: seq<NodeRow>, p: nat, k: nat): (r: seq<NodeRow>)
    requires p <= |base|
    ensures |r| == Min(k, |base| - p)
  {
    base[p..Min(p + k, |base|)]
  }

  lemma SliceJoins(base: seq<NodeRow>, p: nat, k: nat)
    requires p <= |base|
    ensures base[..p] + Slice(base, p, k) == base[..Min(p + k, |base|)]
  {
  }

  lemma LimitIsSlice(base: seq<NodeRow>, p: nat, k: nat)
    requires p <= |base|
    ensures Limit(base[p..], k) == Slice(base, p, k)
  {
  }

  lemma AfterPosition(base: seq<NodeRow>, q: nat)
    requires Scan(base) && 0 < q <= |base|
    ensures Above(base, base[q - 1].id) == base[q..]
  {
    forall i | 0 <= i < |base| ensures base[i].id > base[q - 1].id <==> q <= i {
      if i < q - 1 { assert base[i].id < base[q - 1].id; }
    }
    AboveIsSuffix(base, base[q - 1].id, q);
  }

  lemma SliceAt(base: seq<NodeRow>, p: nat, k: nat)
    requires k > 0 && p + k <= |base|
    ensures Slice(base, p, k)[k - 1] == base[p + k - 1]
  {
  }

  lemma NextIff(base: seq<NodeRow>, p: nat, k: nat)
    requires Scan(base) && k > 0 && p <= |base| && (p == 0 || p < |base|)
    ensures HasNext(Slice(base, p, k), base) <==> p + k < |base|
  {
    if base != [] {
      var s := Slice(base, p, k);
      assert s[|s| - 1] == base[p + |s| - 1];
    }
  }

  // ---- Walks ----

  /** The page says that there is a next one. */
  ghost predicate GoesOn(cc: Codec, rows: seq<NodeRow>, c: Connection)
  {
    UintIds(c.models) && PageInfoOf(cc, c, rows).Some? && PageInfoOf(cc, c, rows).value.hasNextPage
  }

  function Next(cc: Codec, rows: seq<NodeRow>, c: Connection): Option<string>
    requires GoesOn(cc, rows, c)
  {
    PageInfoOf(cc, c, rows).value.endCursor
  }

  /** The answer to the first request, or to the one that the page before it leads to. */
  ghost predicate Answers(cc: Codec, rows: seq<NodeRow>, id: Option<string>, sub: Option<string>, k: int,
                          before: Option<Connection>, c: Connection)
  {
    match before
    case None => Connected(cc, rows, id, sub, Some(k), None) == Some(c)
    case Some(b) => GoesOn(cc, rows, b) && Connected(cc, rows, id, sub, Some(k), Next(cc, rows, b)) == Some(c)
  }

  ghost predicate PageAt(cc: Codec, rows: seq<NodeRow>, id: Option<string>, sub: Option<string>, k: int,
                         pages: seq<Connection>, i: nat)
    requires i < |pages|
  {
    Answers(cc, rows, id, sub, k, if i == 0 then None else Some(pages[i - 1]), pages[i])
  }

  /** A client's walk: it asks for `k` nodes, then for `k` after the last cursor while there is a next
      page. `pages` are the answers so far. */
  ghost predicate Walk(cc: Codec, rows: seq<NodeRow>, id: Option<string>, sub: Option<string>, k: int,
                       pages: seq<Connection>)
  {
    forall i :: 0 <= i < |pages| ==> PageAt(cc, rows, id, sub, k, pages, i)
  }

  function AllEdges(pages: seq<Connection>): seq<NodeRow>
  {
    if pages == [] then [] else AllEdges(pages[..|pages| - 1]) + pages[|pages| - 1].models
  }

  function Requests(n: nat, k: nat): nat
    requires k > 0
  {
    if n == 0 then 1 else (n + k - 1) / k
  }

  lemma {:induction false} Multiples(a: nat, b: nat, k: nat)
    ensures a < b ==> a * k + k <= b * k
  {
    if a + 1 < b { Multiples(a, b - 1, k); }
    assert (b - 1) * k == b * k - k;
  }

  lemma Ceiling(n: nat, k: nat, m: nat)
    requires k > 0 && n > 0 && m * k < n + k
    ensures m <= Requests(n, k)
    ensures n <= m * k <==> m == Requests(n, k)
  {
    var q := (n + k - 1) / k;
    assert q * k <= n + k - 1 < q * k + k;
    Multiples(q, m, k);
    Multiples(m, q, k);
  }

  /** Where page number `m` starts. */
  function Start(m: nat, k: nat): nat
  {
    if m <= 1 then 0 else Start(m - 1, k) + k
  }

  lemma {:induction false} StartIsMultiple(m: nat, k: nat)
    requires m > 0
    ensures Start(m, k) + k == m * k
  {
    if m > 1 { StartIsMultiple(m - 1, k); }
    assert (m - 1) * k == m * k - k;
  }

  /** A page is the slice from position `p` of its base query. */
  ghost predicate Holds(rows: seq<NodeRow>, p: nat, k: nat, c: Connection)
  {
    var base := Base(c.base, rows);
    p <= |base| && c.models == Slice(base, p, k)
  }

  /** There is a next page exactly if the base query has rows behind this one. */
  lemma GoesOnIff(cc: Codec, rows: seq<NodeRow>, p: nat, k: nat, c: Connection)
    requires Scan(rows) && k > 0 && Holds(rows, p, k, c)
    requires p == 0 || p < |Base(c.base, rows)|
    ensures GoesOn(cc, rows, c) <==> p + k < |Base(c.base, rows)|
  {
    BaseScan(c.base, rows);
    NextIff(Base(c.base, rows), p, k);
  }

  lemma FirstPage(cc: Codec, rows: seq<NodeRow>, id: Option<string>, sub: Option<string>, k: nat, c: Connection)
    requires Connected(cc, rows, id, sub, Some(k), None) == Some(c)
    ensures Holds(rows, 0, k, c)
  {
    LimitIsSlice(Base(c.base, rows), 0, k);
  }

  /** A request after an id that can be a cursor. */
  lemma ConnectedAfter(cc: Codec, rows: seq<NodeRow>, id: Option<string>, sub: Option<string>, k: nat, after: Uint,
                       d: Connection)
    requires RoundTrips(cc) && after <= MAX_INT &&
             Connected(cc, rows, id, sub, Some(k), Some(cc.encode(after))) == Some(d)
    ensures d.models == Limit(Above(Base(d.base, rows), after), k)
  {
    assert cc.decode(cc.encode(after)) == Some(after);
  }

  lemma NextIs(cc: Codec, rows: seq<NodeRow>, c: Connection)
    requires GoesOn(cc, rows, c)
    ensures c.models != [] && c.models[|c.models| - 1].id < TWO_64
    ensures Next(cc, rows, c) == Some(cc.encode(c.models[|c.models| - 1].id))
  {
  }

  lemma AfterPage(base: seq<NodeRow>, p: nat, k: nat)
    requires Scan(base) && k > 0 && p + k < |base|
    ensures Slice(base, p, k)[k - 1].id <= MAX_INT
    ensures Limit(Above(base, Slice(base, p, k)[k - 1].id), k) == Slice(base, p + k, k)
  {
    SliceAt(base, p, k);
    AfterPosition(base, p + k);
    LimitIsSlice(base, p + k, k);
  }

  lemma NextPage(cc: Codec, rows: seq<NodeRow>, id: Option<string>, sub: Option<string>, k: nat, p: nat,
                 c: Connection, d: Connection)
    requires RoundTrips(cc) && Scan(rows) && k > 0 && Holds(rows, p, k, c)
    requires p + k < |Base(c.base, rows)| && GoesOn(cc, rows, c)
    requires Connected(cc, rows, id, sub, Some(k), Next(cc, rows, c)) == Some(d) && d.base == c.base
    ensures Holds(rows, p + k, k, d)
  {
    BaseScan(c.base, rows);
    NextIs(cc, rows, c);
    AfterPage(Base(c.base, rows), p, k);
    ConnectedAfter(cc, rows, id, sub, k, c.models[k - 1].id, d);
  }

  /** The last page is the one from `p` on, and all together they are what comes before its end. */
  ghost predicate Walked(rows: seq<NodeRow>, k: nat, p: nat, pages: seq<Connection>)
    requires pages != []
  {
    var (base, last) := (Base(pages[0].base, rows), pages[|pages| - 1]);
    && last.base == pages[0].base && Holds(rows, p, k, last)
    && (p == 0 || p < |base|) && AllEdges(pages) == base[..Min(p + k, |base|)]
  }

  lemma WalkedFirst(rows: seq<NodeRow>, k: nat, pages: seq<Connection>)
    requires |pages| == 1 && Holds(rows, 0, k, pages[0])
    ensures Walked(rows, k, 0, pages)
  {
    assert AllEdges(pages[..0]) == [];
  }

  lemma WalkedNext(rows: seq<NodeRow>, k: nat, p: nat, pages: seq<Connection>, c: Connection)
    requires pages != [] && Walked(rows, k, p, pages) && c.base == pages[0].base
    requires p + k < |Base(c.base, rows)| && Holds(rows, p + k, k, c)
    ensures Walked(rows, k, p + k, pages + [c])
  {
    assert AllEdges(pages + [c]) == AllEdges(pages) + c.models by {
      assert (pages + [c])[..|pages|] == pages;
    }
    SliceJoins(Base(c.base, rows), p + k, k);
  }

  lemma WalkFront(cc: Codec, rows: seq<NodeRow>, id: Option<string>, sub: Option<string>, k: int,
                  pages: seq<Connection>)
    requires Walk(cc, rows, id, sub, k, pages) && |pages| > 1
    ensures Walk(cc, rows, id, sub, k, pages[..|pages| - 1])
  {
    var front := pages[..|pages| - 1];
    forall i | 0 <= i < |front| ensures PageAt(cc, rows, id, sub, k, front, i) {
      assert PageAt(cc, rows, id, sub, k, pages, i);
    }
  }

  lemma SameBase(cc: Codec, rows: seq<NodeRow>, id: Option<string>, sub: Option<string>, k: int, pages: seq<Connection>)
    requires Walk(cc, rows, id, sub, k, pages) && pages != []
    ensures pages[|pages| - 1].base == pages[0].base
  {
    assert PageAt(cc, rows, id, sub, k, pages, 0) && PageAt(cc, rows, id, sub, k, pages, |pages| - 1);
  }

  lemma WalkStep(cc: Codec, rows: seq<NodeRow>, id: Option<string>, sub: Option<string>, k: nat, p: nat,
                 pages: seq<Connection>, c: Connection)
    requires RoundTrips(cc) && Scan(rows) && k > 0 && pages != [] && Walked(rows, k, p, pages) &&
             c.base == pages[0].base
    requires GoesOn(cc, rows, pages[|pages| - 1])
    requires Connected(cc, rows, id, sub, Some(k), Next(cc, rows, pages[|pages| - 1])) == Some(c)
    ensures Walked(rows, k, p + k, pages + [c])
  {
    GoesOnIff(cc, rows, p, k, pages[|pages| - 1]);
    NextPage(cc, rows, id, sub, k, p, pages[|pages| - 1], c);
    WalkedNext(rows, k, p, pages, c);
  }

  lemma WalkedGrows(cc: Codec, rows: seq<NodeRow>, id: Option<string>, sub: Option<string>, k: nat, p: nat,
                    pages: seq<Connection>)
    requires RoundTrips(cc) && Scan(rows) && k > 0 && |pages| > 1 && Walk(cc, rows, id, sub, k, pages)
    requires Walked(rows, k, p, pages[..|pages| - 1])
    ensures Walked(rows, k, p + k, pages)
  {
    var front, c := pages[..|pages| - 1], pages[|pages| - 1];
    assert pages == front + [c];
    SameBase(cc, rows, id, sub, k, pages);
    assert PageAt(cc, rows, id, sub, k, pages, |pages| - 1);
    WalkStep(cc, rows, id, sub, k, p, front, c);
  }

  lemma {:induction false} WalkPositions(cc: Codec, rows: seq<NodeRow>, id: Option<string>, sub: Option<string>,
                                         k: nat, pages: seq<Connection>)
    requires RoundTrips(cc) && Scan(rows) && k > 0 && pages != [] && Walk(cc, rows, id, sub, k, pages)
    ensures Walked(rows, k, Start(|pages|, k), pages)
  {
    var m := |pages|;
    if m == 1 {
      assert PageAt(cc, rows, id, sub, k, pages, 0);
      FirstPage(cc, rows, id, sub, k, pages[0]);
      WalkedFirst(rows, k, pages);
    } else {
      WalkFront(cc, rows, id, sub, k, pages);
      WalkPositions(cc, rows, id, sub, k, pages[..m - 1]);
      WalkedGrows(cc, rows, id, sub, k, Start(m - 1, k), pages);
    }
  }

  /** How far a walk has come tells whether it goes on. */
  lemma WalkCounts(cc: Codec, rows: seq<NodeRow>, id: Option<string>, sub: Option<string>, k: nat,
                   pages: seq<Connection>)
    requires RoundTrips(cc) && Scan(rows) && k > 0 && pages != [] && Walk(cc, rows, id, sub, k, pages)
    ensures var base := Base(pages[0].base, rows);
            && |pages| <= Requests(|base|, k)
            && AllEdges(pages) <= base
            && (GoesOn(cc, rows, pages[|pages| - 1]) <==> |pages| < Requests(|base|, k))
            && (GoesOn(cc, rows, pages[|pages| - 1]) <==> AllEdges(pages) != base)
  {
    var m, base := |pages|, Base(pages[0].base, rows);
    WalkPositions(cc, rows, id, sub, k, pages);
    GoesOnIff(cc, rows, Start(m, k), k, pages[m - 1]);
    StartIsMultiple(m, k);
    if base != [] { Ceiling(|base|, k, m); }
  }

  /** Every cursor walk over an unchanged table visits all matching nodes exactly once and in order. It
      never makes more than max(1, n/k rounded up) requests, and it ends exactly when it has made so many. */
  lemma WalkVisitsAll(rows: seq<NodeRow>, id: Option<string>, sub: Option<string>, k: nat, pages: seq<Connection>)
    requires Scan(rows) && k > 0 && pages != [] && Walk(CURSORS, rows, id, sub, k, pages)
    ensures var (base, last) := (Base(pages[0].base, rows), pages[|pages| - 1]);
            && |pages| <= Requests(|base|, k) && AllEdges(pages) <= base
            && (GoesOn(CURSORS, rows, last) <==> |pages| < Requests(|base|, k))
            && (GoesOn(CURSORS, rows, last) <==> AllEdges(pages) != base)
  {
    CursorsRoundTrip();
    WalkCounts(CURSORS, rows, id, sub, k, pages);
  }

  lemma LastIdFits(cc: Codec, rows: seq<NodeRow>, k: nat, p: nat, pages: seq<Connection>)
    requires Scan(rows) && pages != [] && Walked(rows, k, p, pages) && GoesOn(cc, rows, pages[|pages| - 1])
    ensures var models := pages[|pages| - 1].models; models != [] && models[|models| - 1].id <= MAX_INT
  {
    var last := pages[|pages| - 1];
    BaseScan(last.base, rows);
    NextIs(cc, rows, last);
  }

  lemma GivenDecodable(cc: Codec, rows: seq<NodeRow>, id: Option<string>, sub: Option<string>, k: nat,
                       pages: seq<Connection>)
    requires pages != [] && Walk(cc, rows, id, sub, k, pages)
    ensures DecodeOptional(cc, id).Some? && DecodeOptional(cc, sub).Some?
  {
    assert PageAt(cc, rows, id, sub, k, pages, 0);
  }

  lemma Answered(cc: Codec, rows: seq<NodeRow>, id: Option<string>, sub: Option<string>, k: nat, after: Uint)
    returns (c: Connection)
    requires RoundTrips(cc) && DecodeOptional(cc, id).Some? && DecodeOptional(cc, sub).Some? && after <= MAX_INT
    ensures Connected(cc, rows, id, sub, Some(k), Some(cc.encode(after))) == Some(c)
  {
    assert cc.decode(cc.encode(after)) == Some(after);
    c := Connected(cc, rows, id, sub, Some(k), Some(cc.encode(after))).value;
  }

  lemma NextAnswered(cc: Codec, rows: seq<NodeRow>, id: Option<string>, sub: Option<string>, k: nat, b: Connection)
    returns (c: Connection)
    requires RoundTrips(cc) && DecodeOptional(cc, id).Some? && DecodeOptional(cc, sub).Some? && GoesOn(cc, rows, b)
    requires b.models != [] && b.models[|b.models| - 1].id <= MAX_INT
    ensures Answers(cc, rows, id, sub, k, Some(b), c)
  {
    NextIs(cc, rows, b);
    c := Answered(cc, rows, id, sub, k, b.models[|b.models| - 1].id);
  }

  lemma WalkExtends(cc: Codec, rows: seq<NodeRow>, id: Option<string>, sub: Option<string>, k: nat,
                    pages: seq<Connection>, c: Connection)
    requires pages != [] && Walk(cc, rows, id, sub, k, pages) &&
             Answers(cc, rows, id, sub, k, Some(pages[|pages| - 1]), c)
    ensures Walk(cc, rows, id, sub, k, pages + [c])
  {
    forall i | 0 <= i < |pages + [c]| ensures PageAt(cc, rows, id, sub, k, pages + [c], i) {
      if i < |pages| {
        assert PageAt(cc, rows, id, sub, k, pages, i);
      }
      assert i > 0 ==> (pages + [c])[i - 1] == pages[i - 1];
    }
  }

  /** A page that says there is a next one leads to it. */
  lemma WalkGoesOn(cc: Codec, rows: seq<NodeRow>, id: Option<string>, sub: Option<string>, k: nat,
                   pages: seq<Connection>)
    returns (c: Connection)
    requires RoundTrips(cc) && Scan(rows) && k > 0 && pages != []
    requires Walk(cc, rows, id, sub, k, pages) && GoesOn(cc, rows, pages[|pages| - 1])
    ensures Walk(cc, rows, id, sub, k, pages + [c])
  {
    WalkPositions(cc, rows, id, sub, k, pages);
    LastIdFits(cc, rows, k, Start(|pages|, k), pages);
    GivenDecodable(cc, rows, id, sub, k, pages);
    c := NextAnswered(cc, rows, id, sub, k, pages[|pages| - 1]);
    WalkExtends(cc, rows, id, sub, k, pages, c);
  }

  /** The total count is the number of edges of a walk that has ended, as long as it fits into an int32. */
  lemma WalkCountsTotal(cc: Codec, rows: seq<NodeRow>, id: Option<string>, sub: Option<string>, k: nat,
                        pages: seq<Connection>)
    requires RoundTrips(cc) && Scan(rows) && k > 0 && pages != [] && Walk(cc, rows, id, sub, k, pages)
    requires !GoesOn(cc, rows, pages[|pages| - 1])
    ensures TotalCount(pages[0], rows) == |AllEdges(pages)| <==> |AllEdges(pages)| < 0x8000_0000
  {
    WalkCounts(cc, rows, id, sub, k, pages);
    Int32Exactly(|AllEdges(pages)|);
  }
}

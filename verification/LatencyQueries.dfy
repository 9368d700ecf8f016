/** Answering latency queries: `loadRuntimeLatencyResults` and the merge in `QueryLatencies` of
    graphql/service/node/latency_cache.go. */
module LatencyQueries {
  import opened Wrappers
  import opened Database
  import opened ProbePool
  import opened LatencyCache

  /** A latency snapshot of the running control plane; a `checkedAt` of 0 is the zero time. */
  datatype RuntimeSnapshot = RuntimeSnapshot(link: string, latencyMs: Cell?<int>, alive: bool, checkedAt: int,
                                             message: string)

  /** The snapshot stands for "not measured yet". */
  predicate Unmeasured(s: RuntimeSnapshot)
  {
    s.checkedAt == 0 && s.latencyMs == null && s.message == "no latency result"
  }

  ghost predicate PointersIn(ss: seq<RuntimeSnapshot>, mem: set<object>)
  {
    forall k :: 0 <= k < |ss| && ss[k].latencyMs != null ==> ss[k].latencyMs in mem
  }

  /** `nodeByLink`: of several nodes with one link, the last. */
  function ByLink(nodes: seq<NodeRow>): map<string, nat>
  {
    if nodes == [] then map[]
    else ByLink(nodes[..|nodes| - 1])[nodes[|nodes| - 1].link := nodes[|nodes| - 1].id]
  }

  predicate Usable(s: RuntimeSnapshot, byLink: map<string, nat>)
  {
    !Unmeasured(s) && s.link in byLink
  }

  ghost function ReadingOf(s: RuntimeSnapshot, id: nat): Reading
    reads if s.latencyMs == null then {} else {s.latencyMs}
  {
    Reading(id, if s.latencyMs == null then None else Some(s.latencyMs.v), s.alive, s.checkedAt, Some(s.message))
  }

  /** What the control plane knows, by node id; a later snapshot of a link replaces an earlier one. */
  ghost function Runtime(ss: seq<RuntimeSnapshot>, byLink: map<string, nat>, mem: set<object>): map<nat, Reading>
    requires PointersIn(ss, mem)
    reads mem
  {
    if ss == [] then map[]
    else
      var (n, s) := (|ss| - 1, ss[|ss| - 1]);
      var before := Runtime(ss[..n], byLink, mem);
      if Usable(s, byLink) then before[byLink[s.link] := ReadingOf(s, byLink[s.link])] else before
  }

  /** One node after the other: its reading, if there is one. */
  function Answers(nodes: seq<NodeRow>, readings: map<nat, Reading>): seq<Reading>
  {
    if nodes == [] then []
    else
      var n := |nodes| - 1;
      Answers(nodes[..n], readings) + if nodes[n].id in readings then [readings[nodes[n].id]] else []
  }

  method NodesByLink(nodes: seq<NodeRow>) returns (byLink: map<string, nat>)
    ensures byLink == ByLink(nodes)
  {
    byLink := map[];
    for k := 0 to |nodes|
      invariant byLink == ByLink(nodes[..k])
    {
      assert nodes[..k + 1][..k] == nodes[..k];
      byLink := byLink[nodes[k].link := nodes[k].id];
    }
    assert nodes[..|nodes|] == nodes;
  }

  /** `cloneLatencyResolver(&LatencyResolver{...})`: the temporary object still shares the pointer. */
  method CloneSnapshot(s: RuntimeSnapshot, id: nat, ghost mem: set<object>)
    returns (r: LatencyResolver, ghost new': set<object>)
    requires PointersIn([s], mem)
    ensures fresh(new') && Shows(r, new', ReadingOf(s, id))
  {
    assert s.latencyMs != null ==> [s][0].latencyMs in mem;
    var message := new Cell(s.message);
    var temporary := new LatencyResolver(id, s.latencyMs, s.alive, s.checkedAt, message);
    r, new' := Clone(temporary, mem + {temporary, message});
  }

  method CloneSnapshots(ss: seq<RuntimeSnapshot>, byLink: map<string, nat>, ghost mem: set<object>)
    returns (results: map<nat, LatencyResolver>, ghost new': set<object>)
    requires PointersIn(ss, mem)
    ensures fresh(new') && Mirrors(results, new', Runtime(ss, byLink, mem))
  {
    results, new' := map[], {};
    for k := 0 to |ss|
      invariant fresh(new') && Mirrors(results, new', Runtime(ss[..k], byLink, mem))
    {
      assert ss[..k + 1][..k] == ss[..k];
      var s := ss[k];
      if Unmeasured(s) {
        continue;
      }
      if s.link !in byLink {
        continue;
      }
      var id := byLink[s.link];
      var r, more := CloneSnapshot(s, id, mem);
      MirrorsMore(results, new', Runtime(ss[..k], byLink, mem), id, r, more, ReadingOf(s, id));
      results, new' := results[id := r], new' + more;
    }
    assert ss[..|ss|] == ss;
  }

  /** Every reading stands under its own node id. */
  ghost predicate Keyed(readings: map<nat, Reading>)
  {
    forall id :: id in readings ==> readings[id].nodeId == id
  }

  lemma {:induction false} StoredKeyed(contents: map<nat, Reading>, rs: seq<Option<Reading>>)
    requires Keyed(contents)
    ensures Keyed(Stored(contents, rs))
  {
    if rs != [] { StoredKeyed(contents, rs[..|rs| - 1]); }
  }

  /** Answers follow the order of the nodes, each under its node's id, and no node with a reading is missed. */
  lemma {:induction false} AnswersInOrder(nodes: seq<NodeRow>, readings: map<nat, Reading>)
    requires Keyed(readings)
    ensures Ids(Answers(nodes, readings)) == Known(nodes, readings)
    ensures forall r :: r in Answers(nodes, readings) ==> r.nodeId in readings && readings[r.nodeId] == r
  {
    if nodes != [] {
      var n := |nodes| - 1;
      AnswersInOrder(nodes[..n], readings);
      IdsConcat(Answers(nodes[..n], readings), if nodes[n].id in readings then [readings[nodes[n].id]] else []);
    }
  }

  function Ids(rs: seq<Reading>): seq<nat>
  {
    seq(|rs|, k requires 0 <= k < |rs| => rs[k].nodeId)
  }

  lemma IdsConcat(a: seq<Reading>, b: seq<Reading>)
    ensures Ids(a + b) == Ids(a) + Ids(b)
  {
  }

  /** The ids of the nodes that have a reading, in order. */
  function Known(nodes: seq<NodeRow>, readings: map<nat, Reading>): seq<nat>
  {
    if nodes == [] then []
    else
      var n := |nodes| - 1;
      Known(nodes[..n], readings) + if nodes[n].id in readings then [nodes[n].id] else []
  }

  // ---- mapsValues ----

  lemma ReadingsMore(rs: seq<LatencyResolver?>, mem: set<object>, r: LatencyResolver, v: Reading)
    requires Within(rs, mem) && Shows(r, mem, v)
    ensures Within(rs + [r], mem) && Readings(rs + [r], mem) == Readings(rs, mem) + [Some(v)]
  {
    assert (rs + [r])[..|rs|] == rs;
  }

  lemma StoredMore(base: map<nat, Reading>, rs: seq<Option<Reading>>, v: Reading)
    ensures Stored(base, rs + [Some(v)]) == Stored(base, rs)[v.nodeId := v]
  {
    assert (rs + [Some(v)])[..|rs|] == rs;
  }

  lemma PlusUpdate(base: map<nat, Reading>, done: map<nat, Reading>, id: nat, v: Reading)
    ensures (base + done)[id := v] == base + done[id := v]
  {
  }

  lemma StoredPlus(base: map<nat, Reading>, values: seq<Option<Reading>>, done: map<nat, Reading>, v: Reading)
    requires Stored(base, values) == base + done
    ensures Stored(base, values + [Some(v)]) == base + done[v.nodeId := v]
  {
    StoredMore(base, values, v);
    PlusUpdate(base, done, v.nodeId, v);
  }

  /** `done` is the part of `shown` for the keys that are not left. */
  ghost predicate Part(done: map<nat, Reading>, shown: map<nat, Reading>, left: set<nat>)
  {
    done.Keys == shown.Keys - left && forall id :: id in done ==> done[id] == shown[id]
  }

  lemma PartMore(done: map<nat, Reading>, shown: map<nat, Reading>, left: set<nat>, id: nat)
    requires Part(done, shown, left) && id in shown && id in left
    ensures Part(done[id := shown[id]], shown, left - {id})
  {
  }

  lemma PartAll(done: map<nat, Reading>, shown: map<nat, Reading>)
    requires Part(done, shown, {})
    ensures done == shown
  {
  }

  /** The map's values in any order; storing them adds the map to what was there. */
  method MapsValues(m: map<nat, LatencyResolver>, ghost mem: set<object>, ghost shown: map<nat, Reading>,
                    ghost base: map<nat, Reading>)
    returns (rs: seq<LatencyResolver?>)
    requires Mirrors(m, mem, shown) && Keyed(shown)
    ensures Within(rs, mem) && Stored(base, Readings(rs, mem)) == base + shown
  {
    rs := [];
    ghost var done: map<nat, Reading> := map[];
    ghost var values: seq<Option<Reading>> := [];
    var left := m.Keys;
    while left != {}
      invariant left <= m.Keys && Part(done, shown, left)
      invariant Within(rs, mem) && Readings(rs, mem) == values && Stored(base, values) == base + done
      decreases left
    {
      var id :| id in left;
      ghost var v := shown[id];
      assert Shows(m[id], mem, v) && v.nodeId == id;
      ReadingsMore(rs, mem, m[id], v);
      StoredPlus(base, values, done, v);
      PartMore(done, shown, left, id);
      rs, done, values := rs + [m[id]], done[id := v], values + [Some(v)];
      left := left - {id};
    }
    PartAll(done, shown);
  }

  // ---- loadRuntimeLatencyResults ----

  predicate HasLink(ss: seq<RuntimeSnapshot>, link: string)
  {
    link != "" && exists k :: 0 <= k < |ss| && ss[k].link == link
  }

  /** The query for the nodes with one of the links. */
  function Linked(table: seq<NodeRow>, ss: seq<RuntimeSnapshot>): seq<NodeRow>
  {
    if table == [] then []
    else
      var n := |table| - 1;
      Linked(table[..n], ss) + if HasLink(ss, table[n].link) then [table[n]] else []
  }

  predicate AnyLink(ss: seq<RuntimeSnapshot>)
  {
    exists k :: 0 <= k < |ss| && ss[k].link != ""
  }

  ghost function Loaded(ss: seq<RuntimeSnapshot>, table: seq<NodeRow>, mem: set<object>): map<nat, Reading>
    requires PointersIn(ss, mem)
    reads mem
  {
    if AnyLink(ss) then Runtime(ss, ByLink(Linked(table, ss)), mem) else map[]
  }

  lemma {:induction false} RuntimeKeyed(ss: seq<RuntimeSnapshot>, byLink: map<string, nat>, mem: set<object>)
    requires PointersIn(ss, mem)
    ensures Keyed(Runtime(ss, byLink, mem))
  {
    if ss != [] { RuntimeKeyed(ss[..|ss| - 1], byLink, mem); }
  }

  lemma LoadedKeyed(ss: seq<RuntimeSnapshot>, table: seq<NodeRow>, mem: set<object>)
    requires PointersIn(ss, mem)
    ensures Keyed(Loaded(ss, table, mem))
  {
    if AnyLink(ss) { RuntimeKeyed(ss, ByLink(Linked(table, ss)), mem); }
  }

  method CloneRuntime(ss: seq<RuntimeSnapshot>, table: seq<NodeRow>, ghost mem: set<object>)
    returns (results: map<nat, LatencyResolver>, ghost new': set<object>)
    requires PointersIn(ss, mem)
    ensures fresh(new') && Mirrors(results, new', Loaded(ss, table, mem))
  {
    if !AnyLink(ss) {
      return map[], {};
    }
    var byLink := NodesByLink(Linked(table, ss));
    results, new' := CloneSnapshots(ss, byLink, mem);
  }

  /** `storeLatencyResults(mapsValues(results))`. */
  method StoreMap(cache: Cache, results: map<nat, LatencyResolver>, ghost mem: set<object>,
                  ghost shown: map<nat, Reading>, now: int)
    requires cache.Valid() && Mirrors(results, mem, shown) && Keyed(shown) && mem !! cache.owned && cache !in mem
    modifies cache
    ensures cache.Valid() && fresh(cache.owned - old(cache.owned)) && cache.exposed == old(cache.exposed) + mem
    ensures cache.contents == old(cache.contents) + shown && cache.updatedAt == Some(now)
  {
    var values := MapsValues(results, mem, shown, cache.contents);
    cache.StoreAll(values, mem, now);
  }

  /** Without a link nothing is stored; otherwise the results are stored, even if there are none. */
  method LoadRuntime(cache: Cache, ss: seq<RuntimeSnapshot>, table: seq<NodeRow>, ghost mem: set<object>, now: int)
    returns (results: map<nat, LatencyResolver>, ghost new': set<object>)
    requires cache.Valid() && PointersIn(ss, mem) && mem !! cache.owned && cache !in mem
    modifies cache
    ensures cache.Valid() && fresh(new') && fresh(cache.owned - old(cache.owned))
    ensures cache.exposed == old(cache.exposed) + mem + new'
    ensures Mirrors(results, new', old(Loaded(ss, table, mem)))
    ensures cache.contents == old(cache.contents) + old(Loaded(ss, table, mem))
    ensures (exists k :: 0 <= k < |ss| && ss[k].link != "") ==> cache.updatedAt == Some(now)
    ensures (forall k :: 0 <= k < |ss| ==> ss[k].link == "") ==> cache.updatedAt == old(cache.updatedAt)
  {
    ghost var loaded := Loaded(ss, table, mem);
    LoadedKeyed(ss, table, mem);
    results, new' := CloneRuntime(ss, table, mem);
    cache.Expose(mem + new');
    if AnyLink(ss) {
      StoreMap(cache, results, new', loaded, now);
    }
  }

  // ---- Where a runtime reading comes from ----

  /** Anything but the zero time, no latency and the message "no latency result". */
  predicate Measured(s: RuntimeSnapshot)
  {
    s.checkedAt != 0 || s.latencyMs != null || s.message != "no latency result"
  }

  /** The reading says what the snapshot says. */
  ghost predicate Reports(s: RuntimeSnapshot, id: nat, r: Reading)
    reads if s.latencyMs == null then {} else {s.latencyMs}
  {
    && r.nodeId == id && r.alive == s.alive && r.testedAt == s.checkedAt && r.message == Some(s.message)
    && (r.latencyMs.Some? <==> s.latencyMs != null)
    && (s.latencyMs != null ==> r.latencyMs == Some(s.latencyMs.v))
  }

  /** Snapshot `k` is the last that was measured and leads to the node. */
  predicate LastFor(ss: seq<RuntimeSnapshot>, byLink: map<string, nat>, id: nat, k: nat)
  {
    && k < |ss| && Leads(ss[k], byLink, id)
    && forall j :: k < j < |ss| ==> !Leads(ss[j], byLink, id)
  }

  predicate Leads(s: RuntimeSnapshot, byLink: map<string, nat>, id: nat)
  {
    Measured(s) && s.link in byLink && byLink[s.link] == id
  }

  /** A node has a runtime reading exactly if some measured snapshot leads to it, and it is the last one's. */
  lemma {:induction false} RuntimeExactly(ss: seq<RuntimeSnapshot>, byLink: map<string, nat>, mem: set<object>, id: nat)
    requires PointersIn(ss, mem)
    ensures id in Runtime(ss, byLink, mem) <==> exists k :: 0 <= k < |ss| && Leads(ss[k], byLink, id)
    ensures id in Runtime(ss, byLink, mem) ==>
              exists k: nat :: LastFor(ss, byLink, id, k) && Reports(ss[k], id, Runtime(ss, byLink, mem)[id])
  {
    if ss != [] {
      var (n, s) := (|ss| - 1, ss[|ss| - 1]);
      RuntimeExactly(ss[..n], byLink, mem, id);
      if Leads(s, byLink, id) {
        assert LastFor(ss, byLink, id, n);
      } else if id in Runtime(ss[..n], byLink, mem) {
        var k: nat :|
          LastFor(ss[..n], byLink, id, k) && Reports(ss[..n][k], id, Runtime(ss[..n], byLink, mem)[id]);
        assert LastFor(ss, byLink, id, k) && ss[k] == ss[..n][k];
      }
    }
  }

  /** Of several nodes with one link the last one stands for it. */
  predicate LastWith(nodes: seq<NodeRow>, link: string, i: nat)
  {
    i < |nodes| && nodes[i].link == link && forall j :: i < j < |nodes| ==> nodes[j].link != link
  }

  lemma {:induction false} ByLinkExactly(nodes: seq<NodeRow>, link: string)
    ensures link in ByLink(nodes) <==> exists i :: 0 <= i < |nodes| && nodes[i].link == link
    ensures link in ByLink(nodes) ==> exists i: nat :: LastWith(nodes, link, i) && ByLink(nodes)[link] == nodes[i].id
  {
    if nodes != [] {
      var n := |nodes| - 1;
      ByLinkExactly(nodes[..n], link);
      if nodes[n].link == link {
        assert LastWith(nodes, link, n);
      } else if link in ByLink(nodes[..n]) {
        var i: nat :| LastWith(nodes[..n], link, i) && ByLink(nodes[..n])[link] == nodes[..n][i].id;
        assert LastWith(nodes, link, i);
      }
    }
  }

  lemma {:induction false} LinkedExactly(table: seq<NodeRow>, ss: seq<RuntimeSnapshot>, row: NodeRow)
    ensures row in Linked(table, ss) <==>
            row in table && row.link != "" && exists k :: 0 <= k < |ss| && ss[k].link == row.link
  {
    if table != [] {
      var n := |table| - 1;
      LinkedExactly(table[..n], ss, row);
      assert table == table[..n] + [table[n]];
    }
  }

  /** A measured snapshot of a row of the node. */
  predicate Measures(s: RuntimeSnapshot, table: seq<NodeRow>, id: nat)
  {
    Measured(s) && s.link != "" && exists row :: row in table && row.id == id && row.link == s.link
  }

  /** What is loaded for a node comes from a measured snapshot with the link of its row, */
  lemma LoadedFrom(ss: seq<RuntimeSnapshot>, table: seq<NodeRow>, mem: set<object>, id: nat) returns (k: nat)
    requires PointersIn(ss, mem) && id in Loaded(ss, table, mem)
    ensures k < |ss| && Measures(ss[k], table, id) && Reports(ss[k], id, Loaded(ss, table, mem)[id])
  {
    var rows := Linked(table, ss);
    var byLink := ByLink(rows);
    RuntimeExactly(ss, byLink, mem, id);
    k :| LastFor(ss, byLink, id, k) && Reports(ss[k], id, Runtime(ss, byLink, mem)[id]);
    ByLinkExactly(rows, ss[k].link);
    var i: nat :| LastWith(rows, ss[k].link, i) && byLink[ss[k].link] == rows[i].id;
    LinkedExactly(table, ss, rows[i]);
  }

  /** and a node that has such a row, alone with its link, is loaded. */
  lemma MeasuredLoads(ss: seq<RuntimeSnapshot>, table: seq<NodeRow>, mem: set<object>, k: nat, row: NodeRow)
    requires PointersIn(ss, mem) && k < |ss| && Measured(ss[k]) && ss[k].link != ""
    requires row in table && row.link == ss[k].link
    requires forall other :: other in table && other.link == row.link ==> other == row
    ensures row.id in Loaded(ss, table, mem)
  {
    var rows := Linked(table, ss);
    LinkedExactly(table, ss, row);
    ByLinkExactly(rows, row.link);
    var i: nat :| LastWith(rows, row.link, i) && ByLink(rows)[row.link] == rows[i].id;
    LinkedExactly(table, ss, rows[i]);
    assert Leads(ss[k], ByLink(rows), row.id);
    RuntimeExactly(ss, ByLink(rows), mem, row.id);
  }

  /** No snapshot of the node was measured. */
  predicate NotMeasured(ss: seq<RuntimeSnapshot>, table: seq<NodeRow>, id: nat)
  {
    forall k :: 0 <= k < |ss| ==> !Measures(ss[k], table, id)
  }

  /** A node of which no snapshot was measured keeps its reading. */
  ghost predicate KeepsOthers(ss: seq<RuntimeSnapshot>, table: seq<NodeRow>, before: map<nat, Reading>,
                              after: map<nat, Reading>)
  {
    forall id :: NotMeasured(ss, table, id) && id in before ==> id in after && after[id] == before[id]
  }

  lemma LoadedKeepsOthers(ss: seq<RuntimeSnapshot>, table: seq<NodeRow>, mem: set<object>, before: map<nat, Reading>)
    requires PointersIn(ss, mem)
    ensures KeepsOthers(ss, table, before, before + Loaded(ss, table, mem))
  {
    forall id | NotMeasured(ss, table, id) ensures id !in Loaded(ss, table, mem) {
      if id in Loaded(ss, table, mem) {
        var k := LoadedFrom(ss, table, mem, id);
      }
    }
  }

  // ---- QueryLatencies ----

  lemma MirrorsIn(m: map<nat, LatencyResolver>, mem: set<object>, contents: map<nat, Reading>, larger: set<object>)
    requires Mirrors(m, mem, contents) && mem <= larger
    ensures Mirrors(m, larger, contents)
  {
    forall id | id in contents ensures Shows(m[id], larger, contents[id]) {
      assert Shows(m[id], mem, contents[id]);
    }
  }

  lemma MirrorsPut(m: map<nat, LatencyResolver>, mem: set<object>, contents: map<nat, Reading>, id: nat,
                   r: LatencyResolver, v: Reading)
    requires Mirrors(m, mem, contents) && Shows(r, mem, v)
    ensures Mirrors(m[id := r], mem, contents[id := v])
  {
    MirrorsMore(m, mem, contents, id, r, mem, v);
    assert mem + mem == mem;
  }

  /** `merged[id] = resolver` for every runtime result, in any order. */
  method Merge(cached: map<nat, LatencyResolver>, ghost c0: map<nat, Reading>, runtime: map<nat, LatencyResolver>,
               ghost c1: map<nat, Reading>, ghost mem: set<object>)
    returns (merged: map<nat, LatencyResolver>)
    requires Mirrors(cached, mem, c0) && Mirrors(runtime, mem, c1)
    ensures Mirrors(merged, mem, c0 + c1)
  {
    merged := cached;
    ghost var done: map<nat, Reading> := map[];
    assert c0 + done == c0;
    var left := runtime.Keys;
    while left != {}
      invariant left <= runtime.Keys && Part(done, c1, left)
      invariant Mirrors(merged, mem, c0 + done)
      decreases left
    {
      var id :| id in left;
      ghost var v := c1[id];
      assert Shows(runtime[id], mem, v);
      MirrorsPut(merged, mem, c0 + done, id, runtime[id], v);
      PlusUpdate(c0, done, id, v);
      PartMore(done, c1, left, id);
      merged, done := merged[id := runtime[id]], done[id := v];
      left := left - {id};
    }
    PartAll(done, c1);
  }

  function Somes(rs: seq<Reading>): (v: seq<Option<Reading>>)
    ensures |v| == |rs|
  {
    seq(|rs|, k requires 0 <= k < |rs| => Some(rs[k]))
  }

  lemma WithinMore(rs: seq<LatencyResolver?>, mem: set<object>, r: LatencyResolver, more: set<object>, v: Reading)
    requires Within(rs, mem) && Shows(r, more, v)
    ensures Within(rs + [r], mem + more) && Readings(rs + [r], mem + more) == Readings(rs, mem) + [Some(v)]
  {
    WithinLarger(rs, mem, mem + more);
    assert Shows(r, mem + more, v);
    ReadingsMore(rs, mem + more, r, v);
  }

  lemma {:induction false} WithinLarger(rs: seq<LatencyResolver?>, mem: set<object>, larger: set<object>)
    requires Within(rs, mem) && mem <= larger
    ensures Within(rs, larger) && Readings(rs, larger) == Readings(rs, mem)
  {
    if rs != [] { WithinLarger(rs[..|rs| - 1], mem, larger); }
  }

  lemma AnswersStep(nodes: seq<NodeRow>, readings: map<nat, Reading>, k: nat)
    requires k < |nodes|
    ensures Somes(Answers(nodes[..k + 1], readings)) ==
            Somes(Answers(nodes[..k], readings)) + if nodes[k].id in readings then [Some(readings[nodes[k].id])] else []
  {
    assert nodes[..k + 1][..k] == nodes[..k];
  }

  method CloneAnswers(nodes: seq<NodeRow>, merged: map<nat, LatencyResolver>, ghost mem: set<object>,
                      ghost readings: map<nat, Reading>)
    returns (results: seq<LatencyResolver?>, ghost out: set<object>)
    requires Mirrors(merged, mem, readings)
    ensures fresh(out) && Within(results, out) && Readings(results, out) == Somes(Answers(nodes, readings))
  {
    results, out := [], {};
    for k := 0 to |nodes|
      invariant fresh(out) && Within(results, out) && Readings(results, out) == Somes(Answers(nodes[..k], readings))
    {
      AnswersStep(nodes, readings, k);
      var id := nodes[k].id;
      if id in merged {
        assert Shows(merged[id], mem, readings[id]);
        var clone, new' := Clone(merged[id], mem);
        WithinMore(results, out, clone, new', readings[id]);
        results, out := results + [clone], out + new';
      }
    }
    assert nodes[..|nodes|] == nodes;
  }

  method MergeAnswers(nodes: seq<NodeRow>, cached: map<nat, LatencyResolver>, ghost mem0: set<object>,
                      ghost c0: map<nat, Reading>,
                      runtime: map<nat, LatencyResolver>, ghost mem1: set<object>, ghost c1: map<nat, Reading>)
    returns (results: seq<LatencyResolver?>, ghost out: set<object>)
    requires Mirrors(cached, mem0, c0) && Mirrors(runtime, mem1, c1)
    ensures fresh(out) && Within(results, out) && Readings(results, out) == Somes(Answers(nodes, c0 + c1))
  {
    MirrorsIn(cached, mem0, c0, mem0 + mem1);
    MirrorsIn(runtime, mem1, c1, mem0 + mem1);
    var merged := Merge(cached, c0, runtime, c1, mem0 + mem1);
    results, out := CloneAnswers(nodes, merged, mem0 + mem1, c0 + c1);
  }

  /** What is cached, and then what the runtime knows, which is stored. */
  method CachedAndRuntime(cache: Cache, ss: seq<RuntimeSnapshot>, table: seq<NodeRow>, ghost mem: set<object>, now: int)
    returns (cached: map<nat, LatencyResolver>, ghost mem0: set<object>,
             runtime: map<nat, LatencyResolver>, ghost mem1: set<object>)
    requires cache.Valid() && PointersIn(ss, mem) && mem !! cache.owned && cache !in mem
    modifies cache
    ensures cache.Valid() && fresh(cache.owned - old(cache.owned))
    ensures mem <= cache.exposed && old(cache.exposed) <= cache.exposed
    ensures Mirrors(cached, mem0, old(cache.contents)) && Mirrors(runtime, mem1, old(Loaded(ss, table, mem)))
    ensures cache.contents == old(cache.contents) + old(Loaded(ss, table, mem))
    ensures KeepsOthers(ss, table, old(cache.contents), cache.contents)
  {
    LoadedKeepsOthers(ss, table, mem, cache.contents);
    cached, mem0 := cache.Snapshot();
    runtime, mem1 := LoadRuntime(cache, ss, table, mem, now);
  }

  /** `QueryLatencies` after the refresh: one answer for each node that has a reading, in the order of
      the nodes, the runtime's reading where there is one and the cached one otherwise. All memory of
      the answers is new, and none of it is the cache's. */
  method QueryLatencies(cache: Cache, nodes: seq<NodeRow>, ss: seq<RuntimeSnapshot>, table: seq<NodeRow>,
                        ghost mem: set<object>, now: int)
    returns (results: seq<LatencyResolver?>, ghost out: set<object>)
    requires cache.Valid() && PointersIn(ss, mem) && mem !! cache.owned && cache !in mem
    modifies cache
    ensures cache.Valid() && fresh(cache.owned - old(cache.owned))
    ensures fresh(out) && mem + out <= cache.exposed && old(cache.exposed) <= cache.exposed
    ensures Within(results, out)
    ensures Readings(results, out) == Somes(Answers(nodes, old(cache.contents) + old(Loaded(ss, table, mem))))
    ensures cache.contents == old(cache.contents) + old(Loaded(ss, table, mem))
    ensures KeepsOthers(ss, table, old(cache.contents), cache.contents)
  {
    ghost var c0, c1 := cache.contents, Loaded(ss, table, mem);
    var cached, mem0, runtime, mem1 := CachedAndRuntime(cache, ss, table, mem, now);
    results, out := MergeAnswers(nodes, cached, mem0, c0, runtime, mem1, c1);
    cache.Expose(out);
  }

  /** A caller that writes through a pointer which it passed in or got back does not reach the cache: neither
      into what a field points to, */
  method CallerWritesCell<T>(cache: Cache, c: Cell<T>, v: T)
    requires cache.Valid() && c in cache.exposed
    modifies c
    ensures cache.Valid() && cache.contents == old(cache.contents) && c.v == v
  {
    c.v := v;
  }

  /** nor into the resolver itself. */
  method CallerWritesResolver(cache: Cache, r: LatencyResolver, v: LatencyResolver)
    requires cache.Valid() && r in cache.exposed
    modifies r
    ensures cache.Valid() && cache.contents == old(cache.contents)
    ensures r.nodeId == old(v.nodeId) && r.latencyMs == old(v.latencyMs) && r.alive == old(v.alive)
    ensures r.testedAt == old(v.testedAt) && r.message == old(v.message)
  {
    r.nodeId, r.latencyMs, r.alive, r.testedAt, r.message := v.nodeId, v.latencyMs, v.alive, v.testedAt, v.message;
  }
}

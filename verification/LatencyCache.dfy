/** The latency cache of graphql/service/node/latency_cache.go: resolver objects with pointer fields on
    the heap, cloned on every way in and out. */
module LatencyCache {
  import opened Wrappers
  import opened Database
  import opened ProbePool

  /** A `*int32` or a `*string`. */
  class Cell<T> {
    var v: T

    constructor (v: T)
      ensures this.v == v
    {
      this.v := v;
    }
  }

  class LatencyResolver {
    var nodeId: nat
    var latencyMs: Cell?<int>
    var alive: bool
    var testedAt: int
    var message: Cell?<string>

    constructor (nodeId: nat, latencyMs: Cell?<int>, alive: bool, testedAt: int, message: Cell?<string>)
      ensures this.nodeId == nodeId && this.latencyMs == latencyMs && this.alive == alive
      ensures this.testedAt == testedAt && this.message == message
    {
      this.nodeId, this.latencyMs, this.alive := nodeId, latencyMs, alive;
      this.testedAt, this.message := testedAt, message;
    }

    /** Everything that a holder of the pointer can write to lies in `mem`. */
    ghost predicate LiesIn(mem: set<object>)
      reads mem
    {
      this in mem && (latencyMs != null ==> latencyMs in mem) && (message != null ==> message in mem)
    }

    ghost function Value(mem: set<object>): (r: Reading)
      requires LiesIn(mem)
      reads mem
      ensures r.nodeId == nodeId && r.alive == alive && r.testedAt == testedAt
      ensures if latencyMs == null then r.latencyMs.None? else r.latencyMs == Some(latencyMs.v)
      ensures if message == null then r.message.None? else r.message == Some(message.v)
    {
      Reading(nodeId, if latencyMs == null then None else Some(latencyMs.v), alive, testedAt,
              if message == null then None else Some(message.v))
    }
  }

  /** The object lies in the memory `mem` and has the reading. */
  ghost predicate Shows(r: LatencyResolver, mem: set<object>, v: Reading)
    reads mem
  {
    r.LiesIn(mem) && r.Value(mem) == v
  }

  /** `cloneLatencyResolver` of a pointer that is not nil: the same reading in new memory. */
  method Clone(resolver: LatencyResolver, ghost mem: set<object>)
    returns (clone: LatencyResolver, ghost new': set<object>)
    requires resolver.LiesIn(mem)
    ensures fresh(new') && Shows(clone, new', resolver.Value(mem))
    ensures clone.nodeId == resolver.nodeId && clone.alive == resolver.alive && clone.testedAt == resolver.testedAt
    ensures if resolver.latencyMs == null then clone.latencyMs == null
            else clone.latencyMs != null && clone.latencyMs.v == resolver.latencyMs.v
    ensures if resolver.message == null then clone.message == null
            else clone.message != null && clone.message.v == resolver.message.v
  {
    var latency: Cell?<int> := null;
    if resolver.latencyMs != null {
      latency := new Cell(resolver.latencyMs.v);
    }
    var message: Cell?<string> := null;
    if resolver.message != null {
      message := new Cell(resolver.message.v);
    }
    clone := new LatencyResolver(resolver.nodeId, latency, resolver.alive, resolver.testedAt, message);
    new' := {clone} + (if latency == null then {} else {latency}) + (if message == null then {} else {message});
  }

  // ---- Pointers to readings ----

  ghost predicate Within(rs: seq<LatencyResolver?>, mem: set<object>)
    reads mem
  {
    forall k :: 0 <= k < |rs| && rs[k] != null ==> rs[k].LiesIn(mem)
  }

  ghost function Readings(rs: seq<LatencyResolver?>, mem: set<object>): (v: seq<Option<Reading>>)
    requires Within(rs, mem)
    reads mem
    ensures |v| == |rs| && forall k :: 0 <= k < |rs| ==> v[k] == if rs[k] == null then None else Some(rs[k].Value(mem))
  {
    if rs == [] then []
    else
      var n := |rs| - 1;
      Readings(rs[..n], mem) + [if rs[n] == null then None else Some(rs[n].Value(mem))]
  }

  /** The map leads to objects in `mem` with just these readings. */
  ghost predicate Mirrors(m: map<nat, LatencyResolver>, mem: set<object>, contents: map<nat, Reading>)
    reads mem
  {
    m.Keys == contents.Keys && forall id :: id in contents ==> Shows(m[id], mem, contents[id])
  }

  lemma MirrorsMore(m: map<nat, LatencyResolver>, mem: set<object>, contents: map<nat, Reading>,
                    id: nat, r: LatencyResolver, more: set<object>, v: Reading)
    requires Mirrors(m, mem, contents) && Shows(r, more, v)
    ensures Mirrors(m[id := r], mem + more, contents[id := v])
  {
    var (m', contents') := (m[id := r], contents[id := v]);
    assert m'.Keys == contents'.Keys;
    forall i | i in contents' ensures Shows(m'[i], mem + more, contents'[i]) {
      if i != id { assert Shows(m[i], mem, contents[i]); }
    }
  }

  /** Readings stored one after the other under their node ids, nils skipped. */
  function Stored(contents: map<nat, Reading>, rs: seq<Option<Reading>>): map<nat, Reading>
  {
    if rs == [] then contents
    else
      var before := Stored(contents, rs[..|rs| - 1]);
      match rs[|rs| - 1] case None => before case Some(r) => before[r.nodeId := r]
  }

  /** Reading `k` is the last of the node. */
  predicate LastOf(rs: seq<Option<Reading>>, id: nat, k: nat)
  {
    && k < |rs| && rs[k].Some? && rs[k].value.nodeId == id
    && forall j :: k < j < |rs| && rs[j].Some? ==> rs[j].value.nodeId != id
  }

  /** A node has its last reading, or without one what was there before. */
  lemma {:induction false} StoredExactly(contents: map<nat, Reading>, rs: seq<Option<Reading>>, id: nat)
    ensures (forall k :: 0 <= k < |rs| && rs[k].Some? ==> rs[k].value.nodeId != id) ==>
              (id in Stored(contents, rs) <==> id in contents) &&
              (id in contents ==> Stored(contents, rs)[id] == contents[id])
    ensures forall k: nat :: LastOf(rs, id, k) ==> id in Stored(contents, rs) && Stored(contents, rs)[id] == rs[k].value
  {
    if rs != [] {
      var n := |rs| - 1;
      StoredExactly(contents, rs[..n], id);
      forall k: nat | LastOf(rs, id, k)
        ensures id in Stored(contents, rs) && Stored(contents, rs)[id] == rs[k].value
      {
        if k < n { assert LastOf(rs[..n], id, k); }
      }
    }
  }

  class Cache {
    var items: map<nat, LatencyResolver>
    var updatedAt: Option<int>

    /** What the cache holds, by value. */
    ghost var contents: map<nat, Reading>
    /** The memory it is in, and the memory of everything that was ever passed in or returned. */
    ghost var owned: set<object>
    ghost var exposed: set<object>

    /** The cache shares no memory with anything outside. */
    ghost predicate Valid()
      reads this, owned
    {
      this !in owned && owned !! exposed && Mirrors(items, owned, contents)
    }

    constructor ()
      ensures Valid() && contents == map[] && owned == {} && updatedAt == None
    {
      items := map[];
      updatedAt := None;
      contents, owned, exposed := map[], {}, {};
    }

    /** The cache takes over an object that nobody else holds. */
    method Put(r: LatencyResolver, ghost mem: set<object>)
      requires Valid() && r.LiesIn(mem) && mem !! exposed && this !in mem
      modifies this`items, this`contents, this`owned
      ensures Valid() && owned == old(owned) + mem
      ensures contents == old(contents)[old(r.nodeId) := old(r.Value(mem))]
    {
      ghost var v := r.Value(mem);
      MirrorsMore(items, owned, contents, r.nodeId, r, mem, v);
      items, contents, owned := items[r.nodeId := r], contents[r.nodeId := v], owned + mem;
    }

    /** `nodeLatencyCache.items[result.NodeID] = cloneLatencyResolver(result)`. */
    method StoreOne(r: LatencyResolver, ghost mem: set<object>)
      requires Valid() && r.LiesIn(mem)
      modifies this`items, this`contents, this`owned
      ensures Valid() && fresh(owned - old(owned))
      ensures contents == old(contents)[old(r.nodeId) := old(r.Value(mem))]
    {
      var clone, new' := Clone(r, mem);
      Put(clone, new');
    }

    /** A caller holds this memory. */
    ghost method Expose(mem: set<object>)
      requires Valid() && mem !! owned && this !in mem
      modifies this`exposed
      ensures Valid() && exposed == old(exposed) + mem
    {
      exposed := exposed + mem;
    }

    /** The loop of storeLatencyResults. */
    method StoreEach(results: seq<LatencyResolver?>, ghost mem: set<object>)
      requires Valid() && Within(results, mem) && this !in mem && mem !! owned
      modifies this`items, this`contents, this`owned
      ensures Valid() && fresh(owned - old(owned))
      ensures contents == Stored(old(contents), old(Readings(results, mem)))
    {
      ghost var values := Readings(results, mem);
      for k := 0 to |results|
        invariant Valid() && fresh(owned - old(owned))
        invariant Within(results, mem) && values == Readings(results, mem)
        invariant contents == Stored(old(contents), values[..k])
      {
        assert values[..k + 1][..k] == values[..k];
        var result := results[k];
        if result == null {
          continue;
        }
        assert values[k] == Some(result.Value(mem));
        StoreOne(result, mem);
      }
      assert values[..|results|] == values;
    }

    /** `storeLatencyResults`; the time is read once, before the items. */
    method StoreAll(results: seq<LatencyResolver?>, ghost mem: set<object>, now: int)
      requires Valid() && Within(results, mem) && mem !! owned && this !in mem
      modifies this
      ensures Valid() && updatedAt == Some(now) && exposed == old(exposed) + mem && fresh(owned - old(owned))
      ensures contents == Stored(old(contents), old(Readings(results, mem)))
    {
      Expose(mem);
      updatedAt := Some(now);
      StoreEach(results, mem);
    }

    /** `snapshotCachedLatencyResults`: the contents, in memory of the caller's own. */
    method Snapshot() returns (results: map<nat, LatencyResolver>, ghost mem: set<object>)
      requires Valid()
      modifies this`exposed
      ensures Valid() && Mirrors(results, mem, contents) && fresh(mem) && exposed == old(exposed) + mem
    {
      results, mem := CloneAll(items, owned, contents);
      Expose(mem);
    }
  }

  /** Clones of all the entries, which Go visits in any order. */
  method CloneAll(items: map<nat, LatencyResolver>, ghost owned: set<object>, ghost contents: map<nat, Reading>)
    returns (results: map<nat, LatencyResolver>, ghost mem: set<object>)
    requires Mirrors(items, owned, contents)
    ensures Mirrors(results, mem, contents) && fresh(mem)
  {
    results := map[];
    mem := {};
    ghost var shown: map<nat, Reading> := map[];
    var left := items.Keys;
    while left != {}
      invariant left <= items.Keys && shown.Keys == items.Keys - left
      invariant Mirrors(results, mem, shown) && fresh(mem)
      invariant forall id :: id in shown ==> shown[id] == contents[id]
      decreases left
    {
      var id :| id in left;
      assert Shows(items[id], owned, contents[id]);
      var clone, new' := Clone(items[id], owned);
      MirrorsMore(results, mem, shown, id, clone, new', contents[id]);
      results, mem, shown := results[id := clone], mem + new', shown[id := contents[id]];
      left := left - {id};
    }
    assert shown == contents;
  }
}

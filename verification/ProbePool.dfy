/** The bounded probe pool, testLatencyResultsForNodes of
    graphql/service/node/latency_mutation_utils.go: one goroutine per node, a channel used as a
    semaphore and a WaitGroup, as one state machine over every interleaving. */
module ProbePool {
  import opened Wrappers

  /** A LatencyResolver, by value. */
  datatype Reading = Reading(nodeId: nat, latencyMs: Option<int>, alive: bool, testedAt: int, message: Option<string>)

  const CONCURRENCY: nat := 8

  /** Where a goroutine is. Its deferred calls run in reverse: the token goes back before `wg.Done`. */
  datatype Worker = Unspawned | Starting | Probing | Releasing | Finishing | Finished

  /** `tokens` is the length of the channel `sem`, `wg` the WaitGroup's counter. */
  datatype Pool = Pool(workers: seq<Worker>, spawned: nat, tokens: nat, wg: nat, results: seq<Option<Reading>>,
                       returned: bool)

  datatype Event =
    | Spawn
    | Acquire(i: nat)
    | Probe(i: nat, outcome: Reading)
    | Release(i: nat)
    | Finish(i: nat)
    | Return

  ghost predicate Init(s: Pool, n: nat)
  {
    && |s.workers| == |s.results| == n
    && (forall i :: 0 <= i < n ==> s.workers[i] == Unspawned && s.results[i] == None)
    && s.spawned == s.tokens == s.wg == 0 && !s.returned
  }

  predicate At(s: Pool, i: nat, w: Worker)
  {
    i < |s.workers| && s.workers[i] == w
  }

  /** A send blocks while the channel is full, a receive while it is empty, Wait while the counter is
      not zero. */
  predicate Enabled(s: Pool, e: Event)
  {
    match e
    case Spawn => s.spawned < |s.workers|
    case Acquire(i) => At(s, i, Starting) && s.tokens < CONCURRENCY
    case Probe(i, _) => At(s, i, Probing) && i < |s.results|
    case Release(i) => At(s, i, Releasing) && s.tokens > 0
    case Finish(i) => At(s, i, Finishing) && s.wg > 0
    case Return => s.spawned == |s.workers| && s.wg == 0 && !s.returned
  }

  function Apply(s: Pool, e: Event): Pool
    requires Enabled(s, e)
  {
    match e
    case Spawn => s.(workers := s.workers[s.spawned := Starting], spawned := s.spawned + 1, wg := s.wg + 1)
    case Acquire(i) => s.(workers := s.workers[i := Probing], tokens := s.tokens + 1)
    case Probe(i, r) => s.(workers := s.workers[i := Releasing], results := s.results[i := Some(r)])
    case Release(i) => s.(workers := s.workers[i := Finishing], tokens := s.tokens - 1)
    case Finish(i) => s.(workers := s.workers[i := Finished], wg := s.wg - 1)
    case Return => s.(returned := true)
  }

  ghost predicate Step(s: Pool, e: Event, s': Pool)
  {
    Enabled(s, e) && s' == Apply(s, e)
  }

  ghost predicate Run(ss: seq<Pool>, es: seq<Event>, n: nat)
  {
    && |ss| == |es| + 1 && Init(ss[0], n)
    && forall k :: 0 <= k < |es| ==> Step(ss[k], es[k], ss[k + 1])
  }

  // ---- Counting workers ----

  /** Inside the critical section: between the send and the receive on `sem`. */
  predicate Holds(w: Worker)
  {
    w == Probing || w == Releasing
  }

  predicate Counted(w: Worker)
  {
    w != Unspawned && w != Finished
  }

  /** Steps the worker still has to take, its own spawning included. */
  function Left(w: Worker): nat
  {
    match w
    case Unspawned => 5
    case Starting => 4
    case Probing => 3
    case Releasing => 2
    case Finishing => 1
    case Finished => 0
  }

  function Sum(f: Worker -> nat, ws: seq<Worker>): nat
  {
    if ws == [] then 0 else Sum(f, ws[..|ws| - 1]) + f(ws[|ws| - 1])
  }

  lemma {:induction false} SumUpdate(f: Worker -> nat, ws: seq<Worker>, i: nat, w: Worker)
    requires i < |ws|
    ensures Sum(f, ws[i := w]) + f(ws[i]) == Sum(f, ws) + f(w)
  {
    var n := |ws| - 1;
    if i == n {
      assert ws[i := w][..n] == ws[..n];
    } else {
      SumUpdate(f, ws[..n], i, w);
      assert ws[i := w][..n] == ws[..n][i := w];
    }
  }

  lemma {:induction false} SumZero(f: Worker -> nat, ws: seq<Worker>)
    ensures Sum(f, ws) == 0 <==> forall i :: 0 <= i < |ws| ==> f(ws[i]) == 0
  {
    if ws != [] {
      var n := |ws| - 1;
      SumZero(f, ws[..n]);
      assert forall i :: 0 <= i < n ==> ws[..n][i] == ws[i];
    }
  }

  function HoldsOne(w: Worker): nat { if Holds(w) then 1 else 0 }

  function CountedOne(w: Worker): nat { if Counted(w) then 1 else 0 }

  function LeftAll(s: Pool): nat
  {
    Sum(Left, s.workers) + if s.returned then 0 else 1
  }

  // ---- Invariants of every interleaving ----

  predicate WorkerGood(s: Pool, i: nat)
    requires i < |s.workers| == |s.results|
  {
    && (s.workers[i] == Unspawned <==> s.spawned <= i)
    && (s.results[i].Some? <==> Left(s.workers[i]) <= 2)
    && (s.returned ==> s.workers[i] == Finished)
  }

  /** Channel tokens are the goroutines in the critical section; the WaitGroup counts those not finished. */
  ghost predicate PoolInv(s: Pool, n: nat)
  {
    && |s.workers| == |s.results| == n && s.spawned <= n
    && s.tokens == Sum(HoldsOne, s.workers) && s.tokens <= CONCURRENCY
    && s.wg == Sum(CountedOne, s.workers)
    && (forall i :: 0 <= i < n ==> WorkerGood(s, i))
  }

  lemma InitInv(s: Pool, n: nat)
    requires Init(s, n)
    ensures PoolInv(s, n)
  {
    SumZero(HoldsOne, s.workers);
    SumZero(CountedOne, s.workers);
  }

  /** The worker that a step moves, and where it moves to. */
  ghost predicate Moves(s: Pool, e: Event, i: nat, w: Worker)
  {
    match e
    case Spawn => i == s.spawned && w == Starting
    case Acquire(j) => i == j && w == Probing
    case Probe(j, _) => i == j && w == Releasing
    case Release(j) => i == j && w == Finishing
    case Finish(j) => i == j && w == Finished
    case Return => false
  }

  lemma WorkerMoves(s: Pool, e: Event, i: nat, w: Worker, n: nat)
    requires PoolInv(s, n) && Enabled(s, e) && Moves(s, e, i, w)
    ensures i < n && Apply(s, e).workers == s.workers[i := w] && Left(s.workers[i]) == Left(w) + 1
    ensures Apply(s, e).tokens == s.tokens - HoldsOne(s.workers[i]) + HoldsOne(w)
    ensures Apply(s, e).wg == s.wg - CountedOne(s.workers[i]) + CountedOne(w)
  {
    assert WorkerGood(s, i);
  }

  lemma SumsMove(s: Pool, e: Event, i: nat, w: Worker, n: nat)
    requires PoolInv(s, n) && Enabled(s, e) && Moves(s, e, i, w)
    ensures i < n && Apply(s, e).workers == s.workers[i := w]
    ensures Apply(s, e).tokens == Sum(HoldsOne, s.workers[i := w])
    ensures Apply(s, e).wg == Sum(CountedOne, s.workers[i := w])
    ensures Sum(Left, s.workers) == Sum(Left, s.workers[i := w]) + 1
  {
    WorkerMoves(s, e, i, w, n);
    SumUpdate(HoldsOne, s.workers, i, w);
    SumUpdate(CountedOne, s.workers, i, w);
    SumUpdate(Left, s.workers, i, w);
  }

  lemma AllFinished(s: Pool, n: nat)
    requires PoolInv(s, n) && s.spawned == n && s.wg == 0
    ensures forall i :: 0 <= i < n ==> s.workers[i] == Finished
  {
    SumZero(CountedOne, s.workers);
    forall i | 0 <= i < n ensures s.workers[i] == Finished {
      assert WorkerGood(s, i) && CountedOne(s.workers[i]) == 0;
    }
  }

  /** Every step keeps the invariant and leaves exactly one step less to take. */
  lemma PoolInvStep(s: Pool, e: Event, n: nat)
    requires PoolInv(s, n) && Enabled(s, e)
    ensures PoolInv(Apply(s, e), n) && LeftAll(Apply(s, e)) + 1 == LeftAll(s)
  {
    var s' := Apply(s, e);
    if e.Return? {
      AllFinished(s, n);
      forall i | 0 <= i < n ensures WorkerGood(s', i) {
        assert WorkerGood(s, i);
      }
    } else {
      var i := if e.Spawn? then s.spawned else e.i;
      var w := match e case Spawn => Starting case Acquire(_) => Probing case Probe(_, _) => Releasing
                       case Release(_) => Finishing case _ => Finished;
      SumsMove(s, e, i, w, n);
      forall j | 0 <= j < n ensures WorkerGood(s', j) {
        assert WorkerGood(s, j) && WorkerGood(s, i);
      }
    }
  }

  lemma {:induction false} RunInv(ss: seq<Pool>, es: seq<Event>, n: nat, k: nat)
    requires Run(ss, es, n) && k <= |es|
    ensures PoolInv(ss[k], n) && LeftAll(ss[k]) + k == 5 * n + 1
  {
    if k == 0 {
      InitInv(ss[0], n);
      UnspawnedLeft(ss[0].workers);
    } else {
      RunInv(ss, es, n, k - 1);
      assert Step(ss[k - 1], es[k - 1], ss[k]);
      PoolInvStep(ss[k - 1], es[k - 1], n);
    }
  }

  lemma {:induction false} UnspawnedLeft(ws: seq<Worker>)
    requires forall i :: 0 <= i < |ws| ==> ws[i] == Unspawned
    ensures Sum(Left, ws) == 5 * |ws|
  {
    if ws != [] { UnspawnedLeft(ws[..|ws| - 1]); }
  }

  // ---- The guarantees ----

  lemma {:induction false} SumBelow(f: Worker -> nat, g: Worker -> nat, ws: seq<Worker>)
    requires forall w :: f(w) <= g(w)
    ensures Sum(f, ws) <= Sum(g, ws)
  {
    if ws != [] { SumBelow(f, g, ws[..|ws| - 1]); }
  }

  function ProbingOne(w: Worker): nat { if w == Probing then 1 else 0 }

  /** In every state of every run at most 8 probes are in progress. */
  lemma ProbesBounded(ss: seq<Pool>, es: seq<Event>, n: nat, k: nat)
    requires Run(ss, es, n) && k <= |es|
    ensures Sum(ProbingOne, ss[k].workers) <= ss[k].tokens <= 8
  {
    RunInv(ss, es, n, k);
    SumBelow(ProbingOne, HoldsOne, ss[k].workers);
  }

  lemma {:induction false} SomeCounted(f: Worker -> nat, ws: seq<Worker>) returns (i: nat)
    requires Sum(f, ws) > 0
    ensures i < |ws| && f(ws[i]) > 0
  {
    var n := |ws| - 1;
    if f(ws[n]) > 0 { i := n; } else { i := SomeCounted(f, ws[..n]); }
  }

  /** No deadlock: until the call has returned, some step can be taken. */
  lemma SomeStepEnabled(s: Pool, n: nat, outcome: Reading) returns (e: Event)
    requires PoolInv(s, n) && !s.returned
    ensures Enabled(s, e)
  {
    if s.spawned < n {
      e := Spawn;
    } else if s.wg == 0 {
      e := Return;
    } else if s.tokens > 0 {
      var i := SomeCounted(HoldsOne, s.workers);
      e := if s.workers[i] == Probing then Probe(i, outcome) else Release(i);
    } else {
      SumZero(HoldsOne, s.workers);
      var i := SomeCounted(CountedOne, s.workers);
      assert HoldsOne(s.workers[i]) == 0;
      e := if s.workers[i] == Starting then Acquire(i) else Finish(i);
    }
  }

  /** Every run of `n` nodes takes at most 5n + 1 steps, and one that cannot go on has returned. */
  lemma RunsEnd(ss: seq<Pool>, es: seq<Event>, n: nat, outcome: Reading)
    requires Run(ss, es, n)
    ensures |es| <= 5 * n + 1
    ensures (forall e :: !Enabled(ss[|es|], e)) <==> ss[|es|].returned
    ensures ss[|es|].returned <==> |es| == 5 * n + 1
  {
    RunInv(ss, es, n, |es|);
    var s := ss[|es|];
    if s.returned {
      SumZero(Left, s.workers);
      forall i | 0 <= i < n ensures s.workers[i] == Finished { assert WorkerGood(s, i); }
      if n > 0 { assert WorkerGood(s, n - 1); }
    } else {
      var e := SomeStepEnabled(s, n, outcome);
    }
  }

  lemma Forward(s: Pool, e: Event, i: nat, n: nat)
    requires PoolInv(s, n) && Enabled(s, e) && i < n
    ensures |Apply(s, e).workers| == |Apply(s, e).results| == n
    ensures Left(Apply(s, e).workers[i]) <= Left(s.workers[i])
    ensures e.Probe? && e.i == i ==> Left(s.workers[i]) == 3 && Left(Apply(s, e).workers[i]) == 2
    ensures Apply(s, e).results[i] == if e.Probe? && e.i == i then Some(e.outcome) else s.results[i]
  {
    assert WorkerGood(s, i);
  }

  predicate Probes(e: Event, i: nat)
  {
    e.Probe? && e.i == i
  }

  lemma {:induction false} ProbedAtMostOnce(ss: seq<Pool>, es: seq<Event>, n: nat, j: nat, k: nat, i: nat)
    requires Run(ss, es, n) && j < k <= |es| && i < n && Probes(es[j], i)
    ensures |ss[k].workers| == |ss[k].results| == n && Left(ss[k].workers[i]) <= 2
    ensures ss[k].results[i] == Some(es[j].outcome)
    ensures forall l :: j < l < k ==> !Probes(es[l], i)
  {
    RunInv(ss, es, n, k - 1);
    assert Step(ss[k - 1], es[k - 1], ss[k]);
    Forward(ss[k - 1], es[k - 1], i, n);
    if j < k - 1 {
      ProbedAtMostOnce(ss, es, n, j, k - 1, i);
    }
  }

  lemma {:induction false} ProbedFrom(ss: seq<Pool>, es: seq<Event>, n: nat, k: nat, i: nat) returns (j: nat)
    requires Run(ss, es, n) && k <= |es| && i < n && |ss[k].results| == n && ss[k].results[i].Some?
    ensures j < k && Probes(es[j], i) && ss[k].results[i] == Some(es[j].outcome)
  {
    assert Step(ss[k - 1], es[k - 1], ss[k]);
    RunInv(ss, es, n, k - 1);
    Forward(ss[k - 1], es[k - 1], i, n);
    if Probes(es[k - 1], i) { j := k - 1; } else { j := ProbedFrom(ss, es, n, k - 1, i); }
  }

  /** When the call returns, `results[i]` is the outcome of the one probe of node `i`, for all `i`. */
  lemma ReturnedComplete(ss: seq<Pool>, es: seq<Event>, n: nat, k: nat, i: nat) returns (j: nat)
    requires Run(ss, es, n) && k <= |es| && ss[k].returned && i < n
    ensures j < k && Probes(es[j], i) && |ss[k].results| == n && ss[k].results[i] == Some(es[j].outcome)
    ensures forall l :: 0 <= l < k && Probes(es[l], i) ==> l == j
  {
    RunInv(ss, es, n, k);
    assert WorkerGood(ss[k], i);
    j := ProbedFrom(ss, es, n, k, i);
    ProbedAtMostOnce(ss, es, n, j, k, i);
    forall l | 0 <= l < j && Probes(es[l], i) ensures false {
      ProbedAtMostOnce(ss, es, n, l, k, i);
    }
  }
}

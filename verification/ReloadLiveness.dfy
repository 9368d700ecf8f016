/** The hot-reload protocol, continued: stop messages are conserved, no exit request is lost, and
    every call of config.Run is answered or the loop ends. */
module ReloadLiveness {
  import opened Wrappers
  import opened ReloadProtocol

  // ---- Conservation of stop messages ----

  function Pending(p: Plane): nat
  {
    if p.server == Serving || p.server == Stopped then 1 else 0
  }

  /** How many of the first `n` planes still owe a nil message. */
  function Count(planes: seq<Plane>, n: nat): nat
    requires n <= |planes|
  {
    if n == 0 then 0 else Count(planes, n - 1) + Pending(planes[n - 1])
  }

  lemma {:induction false} CountSame(a: seq<Plane>, b: seq<Plane>, n: nat)
    requires n <= |a| && n <= |b| && forall p :: 0 <= p < n ==> Pending(a[p]) == Pending(b[p])
    ensures Count(a, n) == Count(b, n)
  {
    if n > 0 { CountSame(a, b, n - 1); }
  }

  lemma {:induction false} CountDone(a: seq<Plane>, b: seq<Plane>, i: nat, n: nat)
    requires i < n <= |a| && n <= |b| && Pending(a[i]) == 1 && Pending(b[i]) == 0
    requires forall p :: 0 <= p < n && p != i ==> Pending(a[p]) == Pending(b[p])
    ensures Count(a, n) == Count(b, n) + 1
  {
    if i == n - 1 { CountSame(a, b, n - 1); } else { CountDone(a, b, i, n - 1); }
  }

  lemma {:induction false} CountNone(planes: seq<Plane>, n: nat)
    requires n <= |planes| && forall p: nat :: p < n ==> Pending(planes[p]) == 0
    ensures Count(planes, n) == 0
  {
    if n > 0 { CountNone(planes, n - 1); }
  }

  lemma {:induction false} CountPositive(planes: seq<Plane>, n: nat)
    requires n <= |planes| && Count(planes, n) > 0
    ensures exists p: nat :: p < n && Pending(planes[p]) == 1
  {
    if Pending(planes[n - 1]) == 0 { CountPositive(planes, n - 1); }
  }

  /** Stop messages still to come from planes that are no longer current. */
  function Outstanding(s: State): nat
  {
    if s.loop.plane <= |s.planes| then Count(s.planes, s.loop.plane) else 0
  }

  /** Exactly one stop message is due while reloading, plus one for each absorbed exit request. */
  ghost predicate Conserved(s: State)
  {
    Up(s) ==> Outstanding(s) == (if s.loop.reloading then 1 else 0) + s.absorbed
  }

  /** Before the first goroutine reads `c`, nothing was served, listened for or absorbed. */
  ghost predicate BootInv(s: State)
  {
    Up(s) && s.first == None ==>
      && (forall p :: 0 <= p < |s.planes| ==> s.planes[p].server == Unserved)
      && s.absorbed == 0 && !s.loop.listening
  }

  /** Whether the current plane is served: it is exactly if the loop is not reloading. */
  ghost predicate CurrentServed(s: State)
  {
    Up(s) ==>
      && (s.first == None ==> !s.loop.reloading)
      && (s.first != None && s.loop.plane < |s.planes| ==>
            var c := s.planes[s.loop.plane].server;
            if s.loop.reloading then c == Unserved else c == Serving || c == Stopped)
  }

  ghost predicate ServedInv(s: State)
  {
    Conserved(s) && CurrentServed(s)
  }

  /** `c` is replaced before the first goroutine has read it. */
  predicate EarlySwap(s: State, e: Event)
  {
    e.Swap? && s.first == None && (e.loadOk || e.rollbackOk)
  }

  ghost predicate NoEarlySwap(ss: seq<State>, es: seq<Event>)
    requires |ss| == |es| + 1
  {
    forall n :: 0 <= n < |es| ==> !EarlySwap(ss[n], es[n])
  }

  ghost predicate BaseInv(s: State)
  {
    PlanesInv(s) && ClientsInv(s) && BootInv(s) && (Up(s) ==> s.asked == s.exits + s.absorbed)
  }

  lemma BaseInvStep(s: State, e: Event, s': State)
    requires BaseInv(s) && Step(s, e, s')
    ensures BaseInv(s')
  {
    PlanesInvStep(s, e, s');
    ClientsInvStep(s, e, s');
  }

  lemma ConservedStep(s: State, e: Event, s': State)
    requires BaseInv(s) && ServedInv(s) && Step(s, e, s') && !EarlySwap(s, e)
    ensures Conserved(s')
  {
    if Up(s') {
      var n := s.loop.plane;
      match e
      case Boot => CountSame(s.planes, s'.planes, n);
      case Return(p, _) => CountSame(s.planes, s'.planes, n);
      case TakeStop(p) =>
        if p < n { CountDone(s.planes, s'.planes, p, n); }
      case TakeExit => CountSame(s.planes, s'.planes, n);
      case TakeReload(_) => CountSame(s.planes, s'.planes, n);
      case Swap(_, _) => CountSame(s.planes, s'.planes, n);
      case _ =>
    }
  }

  lemma CurrentServedStep(s: State, e: Event, s': State)
    requires BaseInv(s) && CurrentServed(s) && Step(s, e, s') && !EarlySwap(s, e)
    ensures CurrentServed(s')
  {
  }

  lemma ServedInvStep(s: State, e: Event, s': State)
    requires BaseInv(s) && ServedInv(s) && Step(s, e, s') && !EarlySwap(s, e)
    ensures ServedInv(s')
  {
    ConservedStep(s, e, s');
    CurrentServedStep(s, e, s');
  }

  lemma {:induction false} RunKeeps(ss: seq<State>, es: seq<Event>, k: nat)
    requires Run(ss, es) && k <= |es|
    ensures BaseInv(ss[k])
    ensures (forall j :: 0 <= j < k ==> !EarlySwap(ss[j], es[j])) ==> ServedInv(ss[k])
  {
    if k > 0 {
      RunKeeps(ss, es, k - 1);
      assert Step(ss[k - 1], es[k - 1], ss[k]);
      BaseInvStep(ss[k - 1], es[k - 1], ss[k]);
      if forall j :: 0 <= j < k ==> !EarlySwap(ss[j], es[j]) {
        ServedInvStep(ss[k - 1], es[k - 1], ss[k]);
      }
    }
  }

  lemma EarlySwapBreaks(s: State, e: Event, s': State)
    requires BaseInv(s) && Step(s, e, s') && EarlySwap(s, e)
    ensures !Conserved(s')
  {
    if Outstanding(s') > 0 { CountPositive(s'.planes, s'.loop.plane); }
  }

  /** Conservation holds throughout a run if and only if `c` is not replaced before the first goroutine
      has read it. A message may well be received before: the goroutine can read `c` while the new
      plane is being built. */
  lemma ConservationExactly(ss: seq<State>, es: seq<Event>)
    requires Run(ss, es)
    ensures (forall k :: 0 <= k < |ss| ==> Conserved(ss[k])) <==> NoEarlySwap(ss, es)
  {
    if k :| 0 <= k < |es| && EarlySwap(ss[k], es[k]) {
      RunKeeps(ss, es, k);
      assert Step(ss[k], es[k], ss[k + 1]);
      EarlySwapBreaks(ss[k], es[k], ss[k + 1]);
      assert !Conserved(ss[k + 1]);
    } else {
      forall k | 0 <= k < |ss| ensures Conserved(ss[k]) {
        RunKeeps(ss, es, k);
        assert ServedInv(ss[k]);
      }
    }
  }

  // ---- What a nil message means ----

  /** With no exit request absorbed, a stop message seen outside a reload is the current plane's own. */
  lemma StopIsCurrent(s: State, p: nat)
    requires BaseInv(s) && ServedInv(s) && Enabled(s, TakeStop(p))
    requires !s.loop.reloading && s.absorbed == 0
    ensures p == s.loop.plane
  {
    if p < s.loop.plane { CountMember(s.planes, s.loop.plane, p); }
  }

  lemma {:induction false} CountMember(planes: seq<Plane>, n: nat, p: nat)
    requires p < n <= |planes| && Pending(planes[p]) == 1
    ensures Count(planes, n) > 0
  {
    if p < n - 1 { CountMember(planes, n - 1, p); }
  }

  /** An absorbed exit request leaves a stop message due, and any nil then ends the loop: only another
      reload message can be served first. */
  lemma AbsorbedExitIsDue(s: State)
    requires BaseInv(s) && ServedInv(s) && s.phase == Live && s.absorbed > 0 && !s.loop.reloading
    ensures exists p: nat :: p < s.loop.plane && Pending(s.planes[p]) == 1
    ensures forall e :: Enabled(s, e) && (e.TakeStop? || e.TakeExit?) ==> Apply(s, e).phase == Exited
  {
    CountPositive(s.planes, s.loop.plane);
  }

  // ---- The DNS cache ----

  /** Plane `p` inherited its cache, directly or through others, from plane `q`. */
  ghost predicate Inherits(planes: seq<Plane>, p: nat, q: nat)
    requires p < |planes| && forall k :: 0 <= k < |planes| ==> PlaneGood(planes, k)
    decreases p
  {
    assert PlaneGood(planes, p);
    planes[p].cacheFrom.Some? && (planes[p].cacheFrom.value == q || Inherits(planes, planes[p].cacheFrom.value, q))
  }

  /** A cache is only ever handed down between planes that prefer the same IP version. */
  lemma {:induction false} CacheKeepsPreference(s: State, p: nat, q: nat)
    requires PlanesInv(s) && p < |s.planes| && Inherits(s.planes, p, q)
    ensures q < p && s.planes[q].conf.prefer == s.planes[p].conf.prefer
    decreases p
  {
    assert PlaneGood(s.planes, p);
    var r := s.planes[p].cacheFrom.value;
    if r != q { CacheKeepsPreference(s, r, q); }
  }

  /** In every run, a replacement of the plane that does not end the daemon builds one new plane: of the requested
      config, or after a failure of the running one again. It takes over the DNS cache of the plane before
      if and only if the requested and the running config prefer the same IP version; so a failed reload
      loses the cache if they do not, although the config stays. */
  lemma CacheHandedOn(ss: seq<State>, es: seq<Event>, k: nat)
    requires Run(ss, es) && k < |es| && es[k].Swap? && ss[k + 1].phase != Crashed
    ensures ss[k].phase.Loading? && Loads(ss[k], ss[k].phase.client)
    ensures |ss[k + 1].planes| == |ss[k].planes| + 1 && ss[k].loop.plane < |ss[k].planes|
    ensures var (s, i) := (ss[k], ss[k].phase.client);
            var (running, requested) := (s.planes[s.loop.plane].conf, s.clients[i].conf);
            var p := ss[k + 1].planes[|s.planes|];
            && p.conf == (if es[k].loadOk then requested else running)
            && p.cacheFrom == (if requested.prefer == running.prefer then Some(s.loop.plane) else None)
            && !p.closed && p.bpf && p.server == Unserved
    ensures var (l, i) := (ss[k + 1].loop, ss[k].phase.client);
            && l.plane == |ss[k].planes| && l.reloading && l.errReload == !es[k].loadOk && l.callback == Some(i)
            && l.listening == ss[k].loop.listening && ss[k + 1].clients == ss[k].clients
  {
    RunKeeps(ss, es, k);
    assert Step(ss[k], es[k], ss[k + 1]);
  }

  // ---- Replies ----

  ghost predicate Answers(s: State, s': State, i: nat)
  {
    i < |s.clients| && i < |s'.clients| && s.clients[i].Waiting? && !s'.clients[i].Waiting?
  }

  /** A reply without error means that the requested config is being served; a reply with an error
      means that the config which ran before still is. */
  lemma ReplyTruthful(s: State, e: Event, s': State, i: nat)
    requires BaseInv(s) && Step(s, e, s') && Answers(s, s', i)
    ensures var (c, r) := (s.clients[i], s'.clients[i]);
            && s.phase == Live && s.loop.reloading && s.loop.callback == Some(i)
            && r == Recording(c.conf, c.before, s.loop.errReload)
            && s'.phase == Live && !s'.loop.reloading
            && var p := s'.planes[s'.loop.plane];
            && p.server == Serving && !p.closed && p.bpf
            && p.conf == if r.failed then c.before else c.conf
  {
  }

  /** Client `i` waits in `s` since its message was received in `r`. */
  ghost predicate WaitsSince(s: State, i: nat, r: State)
  {
    && i < |s.clients| && i < |r.clients| && r.clients[i].Sending? && r.loop.plane < |r.planes|
    && s.clients[i] == Waiting(r.clients[i].conf, r.planes[r.loop.plane].conf)
  }

  lemma ReceiptAt(s: State, e: Event, s': State, i: nat)
    requires BaseInv(s) && Step(s, e, s') && i < |s'.clients| && s'.clients[i].Waiting?
    requires i < |s.clients| ==> !s.clients[i].Waiting?
    ensures e == TakeReload(i) && WaitsSince(s', i, s)
  {
  }

  lemma WaitingStays(s: State, e: Event, s': State, i: nat)
    requires Step(s, e, s') && i < |s.clients| && s.clients[i].Waiting? && i < |s'.clients| && s'.clients[i].Waiting?
    ensures s'.clients[i] == s.clients[i]
  {
  }

  /** A waiting call has a receipt earlier in the run. */
  lemma {:induction false} FindReceipt(ss: seq<State>, es: seq<Event>, k: nat, i: nat) returns (j: nat)
    requires Run(ss, es) && k <= |es| && i < |ss[k].clients| && ss[k].clients[i].Waiting?
    ensures j < k && es[j] == TakeReload(i) && WaitsSince(ss[k], i, ss[j])
  {
    RunKeeps(ss, es, k - 1);
    assert Step(ss[k - 1], es[k - 1], ss[k]);
    if i < |ss[k - 1].clients| && ss[k - 1].clients[i].Waiting? {
      j := FindReceipt(ss, es, k - 1, i);
      WaitingStays(ss[k - 1], es[k - 1], ss[k], i);
    } else {
      ReceiptAt(ss[k - 1], es[k - 1], ss[k], i);
      j := k - 1;
    }
  }

  /** The swap that put the loop into reloading for client `i`. */
  predicate SwapsFor(s: State, e: Event, i: nat)
  {
    e.Swap? && Loads(s, i)
  }

  lemma SwapAt(s: State, e: Event, s': State, i: nat)
    requires BaseInv(s) && Step(s, e, s') && s'.phase == Live && s'.loop.reloading && s'.loop.callback == Some(i)
    requires !(s.phase == Live && s.loop.reloading)
    ensures SwapsFor(s, e, i) && s'.loop.errReload == !e.loadOk && i < |s'.clients| && s'.clients[i] == s.clients[i]
  {
  }

  lemma ReloadingStays(s: State, e: Event, s': State, i: nat)
    requires BaseInv(s) && Step(s, e, s') && s'.phase == Live && s'.loop.reloading && s'.loop.callback == Some(i)
    requires s.phase == Live && s.loop.reloading
    ensures s.loop.callback == Some(i) && s'.loop.errReload == s.loop.errReload
    ensures i < |s.clients| && i < |s'.clients| && s'.clients[i] == s.clients[i]
  {
  }

  lemma {:induction false} FindSwap(ss: seq<State>, es: seq<Event>, k: nat, i: nat) returns (l: nat)
    requires Run(ss, es) && k <= |es| && ss[k].phase == Live && ss[k].loop.reloading && ss[k].loop.callback == Some(i)
    ensures l < k && SwapsFor(ss[l], es[l], i) && ss[k].loop.errReload == !es[l].loadOk
    ensures i < |ss[k].clients| && ss[k].clients[i] == ss[l].clients[i]
  {
    RunKeeps(ss, es, k - 1);
    assert Step(ss[k - 1], es[k - 1], ss[k]);
    if ss[k - 1].phase == Live && ss[k - 1].loop.reloading {
      ReloadingStays(ss[k - 1], es[k - 1], ss[k], i);
      l := FindSwap(ss, es, k - 1, i);
    } else {
      SwapAt(ss[k - 1], es[k - 1], ss[k], i);
      l := k - 1;
    }
  }

  /** The plane that is being served was built from `conf`, is open and owns the BPF object. */
  ghost predicate Serves(s: State, conf: Conf)
  {
    s.loop.plane < |s.planes| && var p := s.planes[s.loop.plane];
    p.conf == conf && !p.closed && p.bpf && p.server == Serving
  }

  /** Over all runs: an answered call was received before, at `j`, and loaded or not at `l`. It is told of
      an error exactly if its config did not load; without an error its config is now being served, and
      with one the config that ran when it was received. */
  lemma AnsweredTruthfully(ss: seq<State>, es: seq<Event>, k: nat, i: nat) returns (j: nat, l: nat)
    requires Run(ss, es) && k < |es| && Answers(ss[k], ss[k + 1], i)
    ensures j < l < k && es[j] == TakeReload(i) && WaitsSince(ss[k], i, ss[j]) && SwapsFor(ss[l], es[l], i)
    ensures ss[k + 1].clients[i].Recording? && ss[k + 1].clients[i].failed == !es[l].loadOk
    ensures Serves(ss[k + 1], if es[l].loadOk then ss[j].clients[i].conf else ss[j].planes[ss[j].loop.plane].conf)
  {
    RunKeeps(ss, es, k);
    assert Step(ss[k], es[k], ss[k + 1]);
    ReplyTruthful(ss[k], es[k], ss[k + 1], i);
    l := FindSwap(ss, es, k, i);
    j := FindReceipt(ss, es, l, i);
  }

  function ClientWork(c: Client): nat
  {
    match c
    case Asking => 7
    case Building => 6
    case Sending(_) => 5
    case Waiting(_, _) => 3
    case Recording(_, _, _) => 1
    case Done => 0
  }

  lemma ClientForward(s: State, e: Event, s': State, i: nat)
    requires Step(s, e, s') && i < |s.clients|
    ensures i < |s'.clients| && ClientWork(s'.clients[i]) <= ClientWork(s.clients[i])
  {
  }

  lemma {:induction false} ClientStaysForward(ss: seq<State>, es: seq<Event>, j: nat, k: nat, i: nat)
    requires Run(ss, es) && j <= k <= |es| && i < |ss[j].clients|
    ensures i < |ss[k].clients| && ClientWork(ss[k].clients[i]) <= ClientWork(ss[j].clients[i])
  {
    if j < k {
      ClientStaysForward(ss, es, j, k - 1, i);
      assert Step(ss[k - 1], es[k - 1], ss[k]);
      ClientForward(ss[k - 1], es[k - 1], ss[k], i);
    }
  }

  /** No call is answered twice in a run. */
  lemma AnsweredOnce(ss: seq<State>, es: seq<Event>, j: nat, k: nat, i: nat)
    requires Run(ss, es) && j < |es| && k < |es|
    requires Answers(ss[j], ss[j + 1], i) && Answers(ss[k], ss[k + 1], i)
    ensures j == k
  {
    assert Step(ss[j], es[j], ss[j + 1]) && Step(ss[k], es[k], ss[k + 1]);
    ClientForward(ss[j], es[j], ss[j + 1], i);
    ClientForward(ss[k], es[k], ss[k + 1], i);
    if j < k {
      ClientStaysForward(ss, es, j + 1, k, i);
    } else if k < j {
      ClientStaysForward(ss, es, k + 1, j, i);
    }
  }

  // ---- Progress ----

  /** Steps that the outside world takes: new requests, and a plane that stops of its own accord. */
  predicate Environment(s: State, e: Event)
  {
    e.Ask? || e.AskExit? || (e.Return? && e.plane < |s.planes| && !s.planes[e.plane].closed)
  }

  function PlaneWork(p: Plane): nat
  {
    if p.server == Serving then 2 else if p.server == Stopped then 1 else 0
  }

  function PlanesWork(planes: seq<Plane>): nat
  {
    if planes == [] then 0 else PlanesWork(planes[..|planes| - 1]) + PlaneWork(planes[|planes| - 1])
  }

  function ClientsWork(clients: seq<Client>): nat
  {
    if clients == [] then 0 else ClientsWork(clients[..|clients| - 1]) + ClientWork(clients[|clients| - 1])
  }

  function Work(s: State): nat
  {
    (if s.first == None then 3 else 0) + (if s.phase.Loading? then 1 else 0) +
    PlanesWork(s.planes) + ClientsWork(s.clients) + s.exits
  }

  lemma {:induction false} PlanesWorkUpdate(planes: seq<Plane>, p: nat, v: Plane)
    requires p < |planes|
    ensures PlanesWork(planes[p := v]) == PlanesWork(planes) - PlaneWork(planes[p]) + PlaneWork(v)
  {
    var n := |planes| - 1;
    if p == n {
      assert planes[p := v][..n] == planes[..n];
    } else {
      PlanesWorkUpdate(planes[..n], p, v);
      assert planes[p := v][..n] == planes[..n][p := v];
    }
  }

  lemma {:induction false} ClientsWorkUpdate(clients: seq<Client>, i: nat, v: Client)
    requires i < |clients|
    ensures ClientsWork(clients[i := v]) == ClientsWork(clients) - ClientWork(clients[i]) + ClientWork(v)
  {
    var n := |clients| - 1;
    if i == n {
      assert clients[i := v][..n] == clients[..n];
    } else {
      ClientsWorkUpdate(clients[..n], i, v);
      assert clients[i := v][..n] == clients[..n][i := v];
    }
  }

  lemma PlaneAdded(planes: seq<Plane>, v: Plane)
    requires PlaneWork(v) == 0
    ensures PlanesWork(planes + [v]) == PlanesWork(planes)
  {
    assert (planes + [v])[..|planes|] == planes;
  }

  /** `case nil`: serving the new plane costs two steps, and answering the call pays for them. */
  lemma NilWork(s: State)
    requires s.phase == Live && s.loop.plane == |s.planes| - 1
    requires s.loop.reloading ==> s.planes[s.loop.plane].server == Unserved && ReplyOwed(s)
    ensures Work(OnNil(s)) <= Work(s)
  {
    var c := s.loop.plane;
    if s.loop.reloading && s.loop.listening {
      PlanesWorkUpdate(s.planes, c, s.planes[c].(server := Serving));
      var i := s.loop.callback.value;
      ClientsWorkUpdate(s.clients, i, Recording(s.clients[i].conf, s.clients[i].before, s.loop.errReload));
    } else {
      PlanesWorkUpdate(s.planes, c, s.planes[c].(closed := true));
    }
  }

  lemma ReloadWork(s: State, i: nat)
    requires PlanesInv(s) && Enabled(s, TakeReload(i))
    ensures Work(OnReload(s, i)) < Work(s)
  {
    var c := s.loop.plane;
    PlanesWorkUpdate(s.planes, c, s.planes[c].(bpf := false));
    ClientsWorkUpdate(s.clients, i, Waiting(s.clients[i].conf, s.loop.conf));
  }

  lemma SwapWork(s: State, i: nat, loadOk: bool, rollbackOk: bool)
    requires PlanesInv(s) && Loads(s, i) && (loadOk || rollbackOk)
    ensures Work(OnLoaded(s, i, loadOk, rollbackOk)) < Work(s)
  {
    var c := s.loop.plane;
    PlanesWorkUpdate(s.planes, c, Retired(s.planes[c]));
    PlaneAdded(s.planes[c := Retired(s.planes[c])], BuiltPlane(s.loop, s.clients[i].conf, loadOk));
  }

  lemma ServerWork(s: State, p: nat, v: Server)
    requires p < |s.planes|
    ensures PlanesWork(SetServer(s.planes, p, v)) + PlaneWork(s.planes[p]) ==
            PlanesWork(s.planes) + PlaneWork(s.planes[p].(server := v))
  {
    PlanesWorkUpdate(s.planes, p, s.planes[p].(server := v));
  }

  lemma StopWork(s: State, p: nat)
    requires BaseInv(s) && ServedInv(s) && Enabled(s, TakeStop(p))
    ensures Work(Apply(s, TakeStop(p))) < Work(s)
  {
    ServerWork(s, p, Gone);
    NilWork(s.(planes := SetServer(s.planes, p, Gone)));
  }

  lemma ExitWork(s: State)
    requires BaseInv(s) && ServedInv(s) && Enabled(s, TakeExit)
    ensures Work(Apply(s, TakeExit)) < Work(s)
  {
    NilWork(s.(exits := s.exits - 1));
  }

  lemma LockWork(s: State, i: nat)
    requires Enabled(s, TryLock(i))
    ensures Work(Apply(s, TryLock(i))) < Work(s)
  {
    ClientsWorkUpdate(s.clients, i, Building);
    ClientsWorkUpdate(s.clients, i, Done);
  }

  /** Every step that the environment does not take uses up work, except the fatal one. */
  lemma WorkDecreases(s: State, e: Event, s': State)
    requires BaseInv(s) && ServedInv(s) && Step(s, e, s') && !Environment(s, e) && s'.phase != Crashed
    ensures Work(s') < Work(s)
  {
    match e
    case Boot => ServerWork(s, s.loop.plane, Serving);
    case Return(p, _) => ServerWork(s, p, Stopped);
    case TakeStop(p) => StopWork(s, p);
    case TakeExit => ExitWork(s);
    case TakeReload(i) => ReloadWork(s, i);
    case Swap(loadOk, rollbackOk) => SwapWork(s, s.phase.client, loadOk, rollbackOk);
    case TryLock(i) => LockWork(s, i);
    case Send(i, conf) => ClientsWorkUpdate(s.clients, i, Sending(conf));
    case Abort(i) => ClientsWorkUpdate(s.clients, i, Done);
    case Unlock(i) => ClientsWorkUpdate(s.clients, i, Done);
  }

  /** Nothing is left to do but for the environment. */
  ghost predicate Quiet(s: State)
  {
    forall e :: Enabled(s, e) ==> Environment(s, e)
  }

  /** While the loop lives, a quiet state owes nothing: no call is unanswered, no exit request was
      ever made, and no stop message is due. */
  lemma QuietMeansDone(s: State)
    requires BaseInv(s) && ServedInv(s) && Up(s) && Quiet(s)
    ensures s.phase == Live && !s.loop.reloading && s.asked == 0 && Outstanding(s) == 0 && s.first.Some?
    ensures forall i :: 0 <= i < |s.clients| ==> s.clients[i] == Done
  {
    assert !Enabled(s, Swap(false, true)) && !Enabled(s, Boot) && !Enabled(s, TakeExit);
    forall p: nat | p < s.loop.plane ensures Pending(s.planes[p]) == 0 {
      assert !Enabled(s, TakeStop(p)) && !Enabled(s, Return(p, true));
    }
    CountNone(s.planes, s.loop.plane);
    forall i | 0 <= i < |s.clients| ensures s.clients[i] == Done {
      assert !Enabled(s, TakeReload(i)) && !Enabled(s, TryLock(i)) && !Enabled(s, Abort(i)) && !Enabled(s, Unlock(i));
    }
  }

  lemma RunWorkDecreases(ss: seq<State>, es: seq<Event>, k: nat)
    requires Run(ss, es) && NoEarlySwap(ss, es) && k < |es|
    requires !Environment(ss[k], es[k]) && ss[k + 1].phase != Crashed
    ensures Work(ss[k + 1]) < Work(ss[k])
  {
    RunKeeps(ss, es, k);
    assert Step(ss[k], es[k], ss[k + 1]);
    WorkDecreases(ss[k], es[k], ss[k + 1]);
  }

  /** Between two actions of the environment a run takes at most `Work` steps. */
  lemma {:induction false} SystemStepsBounded(ss: seq<State>, es: seq<Event>, j: nat, k: nat)
    requires Run(ss, es) && NoEarlySwap(ss, es) && j <= k <= |es|
    requires forall n :: j <= n <= k ==> ss[n].phase != Crashed
    requires forall n :: j <= n < k ==> !Environment(ss[n], es[n])
    ensures k - j + Work(ss[k]) <= Work(ss[j])
  {
    if j < k {
      SystemStepsBounded(ss, es, j, k - 1);
      RunWorkDecreases(ss, es, k - 1);
    }
  }

  /** A run that has come to rest has answered every call and lost no exit request, or its loop ended. */
  lemma RestedRun(ss: seq<State>, es: seq<Event>)
    requires Run(ss, es) && NoEarlySwap(ss, es) && Quiet(ss[|es|])
    ensures var s := ss[|es|];
            s.phase == Exited || s.phase == Crashed ||
            (s.asked == 0 && forall i :: 0 <= i < |s.clients| ==> s.clients[i] == Done)
  {
    RunKeeps(ss, es, |es|);
    if Up(ss[|es|]) { QuietMeansDone(ss[|es|]); }
  }

  lemma RunExtends(ss: seq<State>, es: seq<Event>, e: Event, s': State)
    requires Run(ss, es) && Step(ss[|es|], e, s')
    ensures Run(ss + [s'], es + [e])
  {
    var (ss', es') := (ss + [s'], es + [e]);
    forall k | 0 <= k < |es'| ensures Step(ss'[k], es'[k], ss'[k + 1]) {
      if k < |es| { assert Step(ss[k], es[k], ss[k + 1]); }
    }
  }

  function Queued(initial: Conf, clients: seq<Client>, lock: Option<nat>): State
  {
    State(Live, Loop(0, initial, false, false, None, false), [Plane(initial, false, true, None, Unserved)],
          None, clients, lock, 0, 0, 0)
  }

  /** A call sends its config before the first goroutine has read `c`. */
  lemma SentEarly(initial: Conf, conf: Conf) returns (ss: seq<State>, es: seq<Event>)
    ensures Run(ss, es) && |es| == 3 && ss[3] == Queued(initial, [Sending(conf)], Some(0))
    ensures forall n :: 0 <= n < |es| ==> !es[n].Swap?
  {
    ss := [Queued(initial, [], None), Queued(initial, [Asking], None), Queued(initial, [Building], Some(0)),
           Queued(initial, [Sending(conf)], Some(0))];
    es := [Ask, TryLock(0), Send(0, conf)];
    assert Step(ss[0], es[0], ss[1]) && Step(ss[1], es[1], ss[2]) && Step(ss[2], es[2], ss[3]);
  }

  /** And it is received before that, too. */
  lemma ReceivedEarly(initial: Conf, conf: Conf) returns (ss: seq<State>, es: seq<Event>)
    ensures Run(ss, es) && |es| == 4 && es[3] == TakeReload(0) && ss[3].first == None
    ensures forall n :: 0 <= n < |es| ==> !es[n].Swap?
    ensures ss[4] == State(Loading(0), Loop(0, initial, false, false, None, false),
                           [Plane(initial, false, false, None, Unserved)], None, [Waiting(conf, initial)],
                           Some(0), 0, 0, 0)
  {
    ss, es := SentEarly(initial, conf);
    var s' := Apply(ss[3], TakeReload(0));
    RunExtends(ss, es, TakeReload(0), s');
    ss, es := ss + [s'], es + [TakeReload(0)];
  }

  /** The excluded case is real: if `c` is replaced early, a run can come to rest while the loop lives,
      the call waits, and no stop message is due that would release it. */
  lemma EarlySwapStrands(initial: Conf, conf: Conf) returns (ss: seq<State>, es: seq<Event>)
    requires conf.subscriptions == []
    ensures Run(ss, es) && |es| == 6 && EarlySwap(ss[4], es[4])
    ensures var s := ss[6]; s.phase == Live && Quiet(s) && s.clients == [Waiting(conf, initial)] && Outstanding(s) == 0
  {
    ss, es := ReceivedEarly(initial, conf);
    var s5 := Apply(ss[4], Swap(true, true));
    RunExtends(ss, es, Swap(true, true), s5);
    ss, es := ss + [s5], es + [Swap(true, true)];
    var s6 := Apply(s5, Boot);
    RunExtends(ss, es, Boot, s6);
    ss, es := ss + [s6], es + [Boot];
    Stranded(s6);
  }

  lemma Stranded(s: State)
    requires s.phase == Live && s.loop.plane == 1 && |s.planes| == 2 && s.first == Some(1) && s.exits == 0
    requires s.planes[0].server == Unserved && s.planes[1].server == Serving && !s.planes[1].closed
    requires |s.clients| == 1 && s.clients[0].Waiting?
    ensures Quiet(s) && Outstanding(s) == 0
  {
    assert Count(s.planes, 1) == Count(s.planes, 0) + 0;
  }

  /** The first goroutine reads `c` while the new plane is being built. */
  lemma ReadMeanwhile(initial: Conf, conf: Conf) returns (ss: seq<State>, es: seq<Event>)
    requires conf.subscriptions == []
    ensures Run(ss, es) && NoEarlySwap(ss, es) && |es| == 6 && es[3] == TakeReload(0) && ss[3].first == None
    ensures var s := ss[6];
            && s.phase == Live && s.first == Some(0) && s.loop == Loop(1, conf, true, false, Some(0), false)
            && |s.planes| == 2 && s.planes[0].server == Serving && s.clients == [Waiting(conf, initial)]
            && s.planes[1].(cacheFrom := None) == Plane(conf, false, true, None, Unserved)
  {
    ss, es := ReceivedEarly(initial, conf);
    var s5 := Apply(ss[4], Boot);
    RunExtends(ss, es, Boot, s5);
    ss, es := ss + [s5], es + [Boot];
    var s6 := Apply(s5, Swap(true, true));
    RunExtends(ss, es, Swap(true, true), s6);
    ss, es := ss + [s6], es + [Swap(true, true)];
  }

  /** The usual restart is therefore not excluded: the message is received early, and the call is answered. */
  lemma EarlyReceiptAnswered(initial: Conf, conf: Conf) returns (ss: seq<State>, es: seq<Event>)
    requires conf.subscriptions == []
    ensures Run(ss, es) && NoEarlySwap(ss, es) && |es| == 8 && es[3] == TakeReload(0) && ss[3].first == None
    ensures ss[8].clients == [Recording(conf, initial, false)] && Serves(ss[8], conf)
  {
    ss, es := ReadMeanwhile(initial, conf);
    var s7 := Apply(ss[6], Return(0, true));
    RunExtends(ss, es, Return(0, true), s7);
    ss, es := ss + [s7], es + [Return(0, true)];
    var s8 := Apply(s7, TakeStop(0));
    RunExtends(ss, es, TakeStop(0), s8);
    ss, es := ss + [s8], es + [TakeStop(0)];
  }
}

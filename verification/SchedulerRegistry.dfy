/** The registry of cron schedulers, AddUpdateScheduler and RemoveUpdateScheduler of
    graphql/service/subscription/mutation_utils.go: a map under a read-write lock, with a check before the
    lock and again under it, for every interleaving of their calls. */
module SchedulerRegistry {
  import opened Wrappers

  datatype Status = Created | Live | Stopped

  /** A gocron scheduler and the subscription it updates. */
  datatype Scheduler = Scheduler(sub: nat, status: Status)

  /** A call of one of the two functions; `x` is the scheduler it is dealing with. From `Entered` to
      `Leaving` it holds the write lock. */
  datatype Task =
    | Adding(sub: nat)
    | Missed(sub: nat)
    | Entered(sub: nat)
    | Holding(x: nat)
    | Started(x: nat)
    | Removing(sub: nat)
    | Inside(sub: nat)
    | Killed(x: nat)
    | Leaving
    | Returned

  datatype State = State(cache: map<nat, nat>, schedulers: seq<Scheduler>, writer: Option<nat>, tasks: seq<Task>)

  datatype Event =
    | CallAdd(sub: nat)
    | CallRemove(sub: nat)
    | Peek(t: nat)
    | Lock(t: nat)
    | Recheck(t: nat, cronOk: bool)
    | StartAsync(t: nat)
    | Insert(t: nat)
    | Stop(t: nat)
    | Delete(t: nat)
    | Unlock(t: nat)

  ghost predicate Init(s: State)
  {
    s.cache == map[] && s.schedulers == [] && s.writer == None && s.tasks == []
  }

  predicate Enabled(s: State, e: Event)
  {
    match e
    case CallAdd(_) => true
    case CallRemove(_) => true
    case Peek(t) => t < |s.tasks| && s.tasks[t].Adding? && s.writer == None
    case Lock(t) => t < |s.tasks| && (s.tasks[t].Missed? || s.tasks[t].Removing?) && s.writer == None
    case Recheck(t, _) => t < |s.tasks| && s.tasks[t].Entered?
    case StartAsync(t) => t < |s.tasks| && s.tasks[t].Holding? && s.tasks[t].x < |s.schedulers|
    case Insert(t) => t < |s.tasks| && s.tasks[t].Started? && s.tasks[t].x < |s.schedulers|
    case Stop(t) =>
      t < |s.tasks| && s.tasks[t].Inside? && (s.tasks[t].sub in s.cache ==> s.cache[s.tasks[t].sub] < |s.schedulers|)
    case Delete(t) => t < |s.tasks| && s.tasks[t].Killed? && s.tasks[t].x < |s.schedulers|
    case Unlock(t) => t < |s.tasks| && s.tasks[t].Leaving?
  }

  function With(s: State, t: nat, task: Task): State
  {
    if t < |s.tasks| then s.(tasks := s.tasks[t := task]) else s
  }

  function SetStatus(s: State, x: nat, status: Status): State
  {
    if x < |s.schedulers| then s.(schedulers := s.schedulers[x := s.schedulers[x].(status := status)]) else s
  }

  function Apply(s: State, e: Event): State
    requires Enabled(s, e)
  {
    match e
    case CallAdd(sub) => s.(tasks := s.tasks + [Adding(sub)])
    case CallRemove(sub) => s.(tasks := s.tasks + [Removing(sub)])
    case Peek(t) => With(s, t, if s.tasks[t].sub in s.cache then Returned else Missed(s.tasks[t].sub))
    case Lock(t) =>
      With(s, t, if s.tasks[t].Missed? then Entered(s.tasks[t].sub) else Inside(s.tasks[t].sub)).(writer := Some(t))
    case Recheck(t, cronOk) =>
      // Under the lock: found after all, or a new scheduler, which a bad cron expression leaves unused.
      var sub := s.tasks[t].sub;
      if sub in s.cache then With(s, t, Leaving)
      else With(s, t, if cronOk then Holding(|s.schedulers|) else Leaving)
           .(schedulers := s.schedulers + [Scheduler(sub, Created)])
    case StartAsync(t) => SetStatus(With(s, t, Started(s.tasks[t].x)), s.tasks[t].x, Live)
    case Insert(t) => With(s, t, Leaving).(cache := s.cache[s.schedulers[s.tasks[t].x].sub := s.tasks[t].x])
    case Stop(t) =>
      var sub := s.tasks[t].sub;
      if sub in s.cache then SetStatus(With(s, t, Killed(s.cache[sub])), s.cache[sub], Stopped) else With(s, t, Leaving)
    case Delete(t) => With(s, t, Leaving).(cache := s.cache - {s.schedulers[s.tasks[t].x].sub})
    case Unlock(t) => With(s, t, Returned).(writer := None)
  }

  ghost predicate Step(s: State, e: Event, s': State)
  {
    Enabled(s, e) && s' == Apply(s, e)
  }

  ghost predicate Run(ss: seq<State>, es: seq<Event>)
  {
    && |ss| == |es| + 1 && Init(ss[0])
    && forall k :: 0 <= k < |es| ==> Step(ss[k], es[k], ss[k + 1])
  }

  // ---- Invariants ----

  predicate HoldsLock(task: Task)
  {
    task.Entered? || task.Holding? || task.Started? || task.Inside? || task.Killed? || task.Leaving?
  }

  /** The scheduler is the one that the cache has for its subscription. */
  predicate Cached(s: State, x: nat)
  {
    x < |s.schedulers| && s.schedulers[x].sub in s.cache && s.cache[s.schedulers[x].sub] == x
  }

  /** Where the lock holder stands between the two halves of its work on a scheduler. */
  predicate Midway(s: State, x: nat, task: Task)
  {
    (task == Started(x) || task == Killed(x)) && s.writer.Some?
  }

  predicate TaskGood(s: State, t: nat)
    requires t < |s.tasks|
  {
    && (HoldsLock(s.tasks[t]) <==> s.writer == Some(t))
    && match s.tasks[t]
       case Holding(x) => x < |s.schedulers| && s.schedulers[x].status == Created && s.schedulers[x].sub !in s.cache
       case Started(x) => x < |s.schedulers| && s.schedulers[x].status == Live && s.schedulers[x].sub !in s.cache
       case Killed(x) => Cached(s, x) && s.schedulers[x].status == Stopped
       case _ => true
  }

  /** The call that holds the lock, if any. */
  function Holder(s: State): Task
  {
    if s.writer.Some? && s.writer.value < |s.tasks| then s.tasks[s.writer.value] else Returned
  }

  /** Live and cached are the same, but for the one scheduler that the lock holder is working on. */
  predicate SchedulerGood(s: State, x: nat)
    requires x < |s.schedulers|
  {
    Midway(s, x, Holder(s)) || (s.schedulers[x].status == Live <==> Cached(s, x))
  }

  ghost predicate CacheGood(s: State)
  {
    forall sub :: sub in s.cache ==> s.cache[sub] < |s.schedulers| && s.schedulers[s.cache[sub]].sub == sub
  }

  ghost predicate RegistryInv(s: State)
  {
    && (s.writer.Some? ==> s.writer.value < |s.tasks|) && CacheGood(s)
    && (forall t :: 0 <= t < |s.tasks| ==> TaskGood(s, t))
    && (forall x :: 0 <= x < |s.schedulers| ==> SchedulerGood(s, x))
  }

  function Actor(e: Event): Option<nat>
  {
    match e
    case CallAdd(_) => None
    case CallRemove(_) => None
    case _ => Some(e.t)
  }

  lemma HolderIs(s: State, t: nat)
    requires RegistryInv(s) && t < |s.tasks| && HoldsLock(s.tasks[t])
    ensures s.writer == Some(t) && Holder(s) == s.tasks[t]
  {
    assert TaskGood(s, t);
  }

  lemma TasksStep(s: State, e: Event, s': State)
    requires RegistryInv(s) && Step(s, e, s')
    ensures forall t :: 0 <= t < |s'.tasks| ==> TaskGood(s', t)
  {
    forall t | 0 <= t < |s'.tasks| ensures TaskGood(s', t) {
      if t < |s.tasks| { assert TaskGood(s, t); }
      if Actor(e).Some? {
        assert TaskGood(s, Actor(e).value);
        if e.Insert? { assert SchedulerGood(s, s.tasks[e.t].x); }
      }
    }
  }

  lemma SchedulersStep(s: State, e: Event, s': State)
    requires RegistryInv(s) && Step(s, e, s')
    ensures forall x :: 0 <= x < |s'.schedulers| ==> SchedulerGood(s', x)
  {
    if Actor(e).Some? {
      assert TaskGood(s, Actor(e).value);
    }
    forall x | 0 <= x < |s'.schedulers| ensures SchedulerGood(s', x) {
      if x < |s.schedulers| { assert SchedulerGood(s, x); }
    }
  }

  /** Every step keeps the registry in order. */
  lemma RegistryInvStep(s: State, e: Event, s': State)
    requires RegistryInv(s) && Step(s, e, s')
    ensures RegistryInv(s')
  {
    if Actor(e).Some? { assert TaskGood(s, Actor(e).value); }
    TasksStep(s, e, s');
    SchedulersStep(s, e, s');
  }

  lemma {:induction false} RunInv(ss: seq<State>, es: seq<Event>, k: nat)
    requires Run(ss, es) && k <= |es|
    ensures RegistryInv(ss[k])
  {
    if k > 0 {
      RunInv(ss, es, k - 1);
      assert Step(ss[k - 1], es[k - 1], ss[k]);
      RegistryInvStep(ss[k - 1], es[k - 1], ss[k]);
    }
  }

  /** Whenever the lock is free, the cache holds exactly the live schedulers: none is lost, none that
      was stopped stays, and there is at most one for a subscription. */
  lemma CacheIsLive(ss: seq<State>, es: seq<Event>, k: nat)
    requires Run(ss, es) && k <= |es| && ss[k].writer == None
    ensures forall x :: 0 <= x < |ss[k].schedulers| ==> (ss[k].schedulers[x].status == Live <==> Cached(ss[k], x))
    ensures forall sub :: sub in ss[k].cache ==>
              ss[k].cache[sub] < |ss[k].schedulers| && ss[k].schedulers[ss[k].cache[sub]] == Scheduler(sub, Live)
  {
    RunInv(ss, es, k);
    var s := ss[k];
    forall x | 0 <= x < |s.schedulers| ensures s.schedulers[x].status == Live <==> Cached(s, x) {
      assert SchedulerGood(s, x);
    }
    forall sub | sub in s.cache ensures s.schedulers[s.cache[sub]] == Scheduler(sub, Live) {
      assert Cached(s, s.cache[sub]);
    }
  }

  lemma OneLivePerSubscription(ss: seq<State>, es: seq<Event>, k: nat, x: nat, y: nat)
    requires Run(ss, es) && k <= |es| && ss[k].writer == None && x < |ss[k].schedulers| && y < |ss[k].schedulers|
    requires ss[k].schedulers[x].status == Live == ss[k].schedulers[y].status
    requires ss[k].schedulers[x].sub == ss[k].schedulers[y].sub
    ensures x == y
  {
    CacheIsLive(ss, es, k);
    assert Cached(ss[k], x) && Cached(ss[k], y);
  }

  /** An addition behind its second look: its scheduler is about to be cached, or the subscription has one. */
  predicate OnItsWay(s: State, t: nat, sub: nat)
  {
    t < |s.tasks| &&
    match s.tasks[t]
    case Holding(x) => x < |s.schedulers| && s.schedulers[x].sub == sub
    case Started(x) => x < |s.schedulers| && s.schedulers[x].sub == sub
    case Leaving => sub in s.cache
    case _ => false
  }

  lemma StaysOnItsWay(s: State, e: Event, s': State, t: nat, sub: nat)
    requires RegistryInv(s) && Step(s, e, s') && OnItsWay(s, t, sub) && e != Unlock(t)
    ensures OnItsWay(s', t, sub)
  {
    assert TaskGood(s, t);
    if Actor(e).Some? { assert TaskGood(s, Actor(e).value); }
  }

  lemma BeginsItsWay(s: State, s': State, t: nat, sub: nat)
    requires Step(s, Recheck(t, true), s') && t < |s.tasks| && s.tasks[t] == Entered(sub)
    ensures OnItsWay(s', t, sub)
  {
  }

  lemma {:induction false} OnItsWaySince(ss: seq<State>, es: seq<Event>, j: nat, k: nat, t: nat, sub: nat)
    requires Run(ss, es) && j < k <= |es| && es[j] == Recheck(t, true)
    requires t < |ss[j].tasks| && ss[j].tasks[t] == Entered(sub)
    requires forall n :: j < n < k ==> es[n] != Unlock(t)
    ensures OnItsWay(ss[k], t, sub)
  {
    assert Step(ss[k - 1], es[k - 1], ss[k]);
    if j < k - 1 {
      OnItsWaySince(ss, es, j, k - 1, t, sub);
      RunInv(ss, es, k - 1);
      StaysOnItsWay(ss[k - 1], es[k - 1], ss[k], t, sub);
    } else {
      BeginsItsWay(ss[j], ss[k], t, sub);
    }
  }

  /** When an addition whose cron expression is good gives the lock back, the subscription has a live scheduler. */
  lemma AddedIsLive(ss: seq<State>, es: seq<Event>, j: nat, k: nat, t: nat, sub: nat) returns (x: nat)
    requires Run(ss, es) && j < k < |es| && es[j] == Recheck(t, true) && es[k] == Unlock(t)
    requires t < |ss[j].tasks| && ss[j].tasks[t] == Entered(sub) && forall n :: j < n < k ==> es[n] != Unlock(t)
    ensures x < |ss[k + 1].schedulers| && ss[k + 1].schedulers[x] == Scheduler(sub, Live)
  {
    OnItsWaySince(ss, es, j, k, t, sub);
    assert Step(ss[k], es[k], ss[k + 1]);
    CacheIsLive(ss, es, k + 1);
    x := ss[k + 1].cache[sub];
  }

  /** The step that completes the removal of a subscription's scheduler. */
  predicate EndsRemoval(s: State, e: Event, sub: nat)
  {
    || (e.Delete? && e.t < |s.tasks| && s.tasks[e.t].Killed? && s.tasks[e.t].x < |s.schedulers|
        && s.schedulers[s.tasks[e.t].x].sub == sub)
    || (e.Stop? && e.t < |s.tasks| && s.tasks[e.t].Inside? && s.tasks[e.t].sub == sub && sub !in s.cache)
  }

  /** When a removal is done, no scheduler of the subscription is live. */
  lemma RemovedIsDead(s: State, e: Event, s': State, sub: nat, x: nat)
    requires RegistryInv(s) && Step(s, e, s') && EndsRemoval(s, e, sub)
    requires x < |s'.schedulers| && s'.schedulers[x].sub == sub
    ensures s'.schedulers[x].status != Live
  {
    HolderIs(s, e.t);
    assert TaskGood(s, e.t);
    assert SchedulerGood(s, x);
  }
}

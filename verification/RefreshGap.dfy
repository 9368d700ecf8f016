/** When the latency cache is refreshed: refreshLatencyCacheIfNeeded of
    graphql/service/node/latency_cache.go, a check repeated under a lock, for every interleaving of its
    callers with each other and with other stores into the cache, under a clock that never goes back. */
module RefreshGap {
  import opened Wrappers

  /** One call; `interval` is the check interval that it read, `last` the update time it looked at
      (None for the zero time). */
  datatype Caller =
    | Called(interval: int)
    | Read(interval: int, last: Option<int>)
    | Waiting(interval: int)
    | Locked(interval: int)
    | Reread(interval: int, last: Option<int>)
    | Refreshing(interval: int)
    | Unlocking
    | Returned

  /** `refreshed` is the time of the last store that such a call made; the code does not keep it. */
  datatype State = State(now: int, updatedAt: Option<int>, mutex: Option<nat>, callers: seq<Caller>,
                         refreshed: Option<int>)

  datatype Event =
    | Tick(d: nat)
    | Call(interval: int)
    | Look(i: nat)
    | Decide(i: nat)
    | Lock(i: nat)
    | Relook(i: nat)
    | Redecide(i: nat)
    | Store(i: nat)
    | Fail(i: nat)
    | Unlock(i: nat)
    | OtherStore

  ghost predicate Init(s: State)
  {
    s.updatedAt == None && s.mutex == None && s.callers == [] && s.refreshed == None
  }

  /** `!last.IsZero() && time.Since(last) < interval`. */
  predicate Recent(last: Option<int>, now: int, interval: int)
  {
    last.Some? && now - last.value < interval
  }

  predicate Enabled(s: State, e: Event)
  {
    match e
    case Tick(_) => true
    case Call(interval) => interval > 0
    case OtherStore => true
    case Look(i) => i < |s.callers| && s.callers[i].Called?
    case Decide(i) => i < |s.callers| && s.callers[i].Read?
    case Lock(i) => i < |s.callers| && s.callers[i].Waiting? && s.mutex == None
    case Relook(i) => i < |s.callers| && s.callers[i].Locked?
    case Redecide(i) => i < |s.callers| && s.callers[i].Reread?
    case Store(i) => i < |s.callers| && s.callers[i].Refreshing?
    case Fail(i) => i < |s.callers| && s.callers[i].Refreshing?
    case Unlock(i) => i < |s.callers| && s.callers[i].Unlocking?
  }

  function With(s: State, i: nat, c: Caller): State
  {
    if i < |s.callers| then s.(callers := s.callers[i := c]) else s
  }

  function Apply(s: State, e: Event): State
    requires Enabled(s, e)
  {
    match e
    case Tick(d) => s.(now := s.now + d)
    case Call(interval) => s.(callers := s.callers + [Called(interval)])
    case OtherStore => s.(updatedAt := Some(s.now))
    case Look(i) => With(s, i, Read(s.callers[i].interval, s.updatedAt))
    case Decide(i) =>
      var c := s.callers[i];
      With(s, i, if Recent(c.last, s.now, c.interval) then Returned else Waiting(c.interval))
    case Lock(i) => With(s, i, Locked(s.callers[i].interval)).(mutex := Some(i))
    case Relook(i) => With(s, i, Reread(s.callers[i].interval, s.updatedAt))
    case Redecide(i) =>
      var c := s.callers[i];
      With(s, i, if Recent(c.last, s.now, c.interval) then Unlocking else Refreshing(c.interval))
    case Store(i) => With(s, i, Unlocking).(updatedAt := Some(s.now), refreshed := Some(s.now))
    case Fail(i) => With(s, i, Unlocking)
    case Unlock(i) => With(s, i, Returned).(mutex := None)
  }

  ghost predicate Step(s: State, e: Event, s': State)
  {
    Enabled(s, e) && s' == Apply(s, e)
  }

  ghost predicate Run(ss: seq<State>, es: seq<Event>)
  {
    && |ss| == |es| + 1 && Init(ss[0])
    && forall k :: 0 <= k < |es| ==> Step(ss[k], es[k], ss[k + 1])
  }

  // ---- Invariants ----

  predicate Inside(c: Caller)
  {
    c.Locked? || c.Reread? || c.Refreshing? || c.Unlocking?
  }

  predicate NotBefore(t: Option<int>, u: Option<int>)
  {
    u.Some? ==> t.Some? && u.value <= t.value
  }

  /** Only the lock holder is inside; what it reads under the lock is not before the last refresh. */
  predicate CallerGood(s: State, i: nat)
    requires i < |s.callers|
  {
    && (Inside(s.callers[i]) <==> s.mutex == Some(i))
    && (s.callers[i].Reread? ==> NotBefore(s.callers[i].last, s.refreshed))
  }

  ghost predicate GapInv(s: State)
  {
    && (s.updatedAt.Some? ==> s.updatedAt.value <= s.now) && NotBefore(s.updatedAt, s.refreshed)
    && (s.mutex.Some? ==> s.mutex.value < |s.callers|)
    && forall i :: 0 <= i < |s.callers| ==> CallerGood(s, i)
  }

  /** Times only grow. */
  lemma TimesGrow(s: State, e: Event, s': State)
    requires GapInv(s) && Step(s, e, s')
    ensures s.now <= s'.now && NotBefore(s'.refreshed, s.refreshed) && NotBefore(s'.updatedAt, s.updatedAt)
    ensures (s'.updatedAt.Some? ==> s'.updatedAt.value <= s'.now) && NotBefore(s'.updatedAt, s'.refreshed)
    ensures s'.refreshed != s.refreshed ==> e.Store?
  {
  }

  function Actor(e: Event): Option<nat>
  {
    match e
    case Tick(_) => None
    case Call(_) => None
    case OtherStore => None
    case _ => Some(e.i)
  }

  lemma OthersStay(s: State, e: Event, s': State, i: nat)
    requires Step(s, e, s') && i < |s.callers| && Actor(e) != Some(i)
    ensures i < |s'.callers| && s'.callers[i] == s.callers[i]
    ensures s'.mutex == s.mutex || (e.Lock? && s.mutex == None && s'.mutex == Some(e.i)) ||
            (e.Unlock? && s'.mutex == None)
  {
  }

  lemma OtherGood(s: State, e: Event, s': State, i: nat)
    requires GapInv(s) && Step(s, e, s') && i < |s.callers| && Actor(e) != Some(i)
    ensures i < |s'.callers| && CallerGood(s', i)
  {
    TimesGrow(s, e, s');
    OthersStay(s, e, s', i);
    assert CallerGood(s, i);
    match e
    case Store(j) => assert CallerGood(s, j);
    case Unlock(j) => assert CallerGood(s, j);
    case _ =>
  }

  lemma ActorGood(s: State, e: Event, s': State, i: nat)
    requires GapInv(s) && Step(s, e, s') && i < |s.callers| && Actor(e) == Some(i)
    ensures i < |s'.callers| && CallerGood(s', i)
  {
    assert CallerGood(s, i);
  }

  lemma GapInvStep(s: State, e: Event, s': State)
    requires GapInv(s) && Step(s, e, s')
    ensures GapInv(s')
  {
    TimesGrow(s, e, s');
    forall i | 0 <= i < |s'.callers| ensures CallerGood(s', i) {
      if i >= |s.callers| {
        assert e.Call?;
      } else if Actor(e) == Some(i) {
        ActorGood(s, e, s', i);
      } else {
        OtherGood(s, e, s', i);
      }
    }
  }

  lemma {:induction false} RunInv(ss: seq<State>, es: seq<Event>, k: nat)
    requires Run(ss, es) && k <= |es|
    ensures GapInv(ss[k])
  {
    if k > 0 {
      RunInv(ss, es, k - 1);
      assert Step(ss[k - 1], es[k - 1], ss[k]);
      GapInvStep(ss[k - 1], es[k - 1], ss[k]);
    }
  }

  lemma {:induction false} Later(ss: seq<State>, es: seq<Event>, j: nat, k: nat)
    requires Run(ss, es) && j <= k <= |es|
    ensures ss[j].now <= ss[k].now
    ensures NotBefore(ss[k].refreshed, ss[j].refreshed) && NotBefore(ss[k].updatedAt, ss[j].updatedAt)
  {
    if j < k {
      Later(ss, es, j, k - 1);
      RunInv(ss, es, k - 1);
      assert Step(ss[k - 1], es[k - 1], ss[k]);
      TimesGrow(ss[k - 1], es[k - 1], ss[k]);
    }
  }

  // ---- The gap ----

  predicate IsRefreshing(s: State, i: nat)
  {
    i < |s.callers| && s.callers[i].Refreshing?
  }

  /** Some call begins to refresh. */
  predicate Starts(s: State, e: Event)
  {
    Enabled(s, e) && e.Redecide? && IsRefreshing(Apply(s, e), e.i)
  }

  /** A refresh begins only so, and exactly if the update time that was read under the lock is none or an
      interval old; before the lock the same is asked, of the time read then. */
  lemma StartsExactly(s: State, e: Event, i: nat)
    requires Enabled(s, e)
    ensures IsRefreshing(Apply(s, e), i) && !IsRefreshing(s, i) ==> e == Redecide(i)
    ensures e == Redecide(i) ==>
              var c := s.callers[i];
              IsRefreshing(Apply(s, e), i) <==> (c.last.Some? ==> s.now - c.last.value >= c.interval)
    ensures e == Decide(i) ==>
              var c := s.callers[i];
              Apply(s, e).callers[i] ==
                if c.last.Some? ==> s.now - c.last.value >= c.interval then Waiting(c.interval) else Returned
  {
  }

  /** A refresh starts at least one check interval, as read by its caller, after every earlier refresh
      has stored its results. */
  lemma RefreshesApart(ss: seq<State>, es: seq<Event>, j: nat, k: nat)
    requires Run(ss, es) && j < k < |es| && es[j].Store? && Starts(ss[k], es[k])
    ensures ss[k].now - ss[j].now >= ss[k].callers[es[k].i].interval
  {
    assert Step(ss[j], es[j], ss[j + 1]);
    Later(ss, es, j + 1, k);
    RunInv(ss, es, k);
    assert CallerGood(ss[k], es[k].i);
  }

  /** Refreshes do not overlap: from the start of one to its end no other can start. */
  lemma OneRefresh(s: State, i: nat, j: nat)
    requires GapInv(s) && i < |s.callers| && j < |s.callers| && s.callers[i].Refreshing? && Inside(s.callers[j])
    ensures i == j
  {
    assert CallerGood(s, i) && CallerGood(s, j);
  }

  lemma {:induction false} SecondLook(ss: seq<State>, es: seq<Event>, k: nat, i: nat) returns (r: nat)
    requires Run(ss, es) && k <= |es| && i < |ss[k].callers| && ss[k].callers[i].Reread?
    ensures r < k && es[r] == Relook(i) && ss[k].callers[i].last == ss[r].updatedAt
  {
    assert Step(ss[k - 1], es[k - 1], ss[k]);
    if es[k - 1] == Relook(i) { r := k - 1; } else { r := SecondLook(ss, es, k - 1, i); }
  }

  predicate Stores(e: Event)
  {
    e.Store? || e.OtherStore?
  }

  /** A refresh also starts at least one interval after every other store, but only after those that
      came before its caller's second look at the update time, `r`. */
  lemma StoresSeenApart(ss: seq<State>, es: seq<Event>, k: nat) returns (r: nat)
    requires Run(ss, es) && k < |es| && Starts(ss[k], es[k])
    ensures r < k && es[r] == Relook(es[k].i)
    ensures forall j :: 0 <= j < r && Stores(es[j]) ==> ss[k].now - ss[j].now >= ss[k].callers[es[k].i].interval
  {
    r := SecondLook(ss, es, k, es[k].i);
    forall j | 0 <= j < r && Stores(es[j]) ensures ss[k].now - ss[j].now >= ss[k].callers[es[k].i].interval {
      assert Step(ss[j], es[j], ss[j + 1]);
      Later(ss, es, j + 1, r);
    }
  }

  /** The update time is that of some store. */
  lemma {:induction false} LastStore(ss: seq<State>, es: seq<Event>, k: nat) returns (j: nat)
    requires Run(ss, es) && k <= |es| && ss[k].updatedAt.Some?
    ensures j < k && Stores(es[j]) && ss[k].updatedAt == Some(ss[j].now)
  {
    assert Step(ss[k - 1], es[k - 1], ss[k]);
    if Stores(es[k - 1]) { j := k - 1; } else { j := LastStore(ss, es, k - 1); }
  }

  /** A refresh starts an interval after every store before it, whoever made it and when, if and only if the
      update time would still let it start if it were looked at once more. */
  lemma StoresApartExactly(ss: seq<State>, es: seq<Event>, k: nat)
    requires Run(ss, es) && k < |es| && Starts(ss[k], es[k])
    ensures var interval := ss[k].callers[es[k].i].interval;
            (forall j :: 0 <= j < k && Stores(es[j]) ==> ss[k].now - ss[j].now >= interval) <==>
            !Recent(ss[k].updatedAt, ss[k].now, interval)
  {
    forall j | 0 <= j < k && Stores(es[j])
      ensures ss[k].updatedAt.Some? && ss[j].now <= ss[k].updatedAt.value
    {
      assert Step(ss[j], es[j], ss[j + 1]);
      Later(ss, es, j + 1, k);
    }
    if ss[k].updatedAt.Some? {
      var j := LastStore(ss, es, k);
    }
  }

  /** A caller takes the lock. */
  lemma CallerLocks(interval: int) returns (ss: seq<State>, es: seq<Event>)
    requires interval > 0
    ensures Run(ss, es) && |es| == 4 && ss[4] == State(0, None, Some(0), [Locked(interval)], None)
  {
    es := [Call(interval), Look(0), Decide(0), Lock(0)];
    var s0 := State(0, None, None, [], None);
    var s1 := Apply(s0, es[0]);
    var s2 := Apply(s1, es[1]);
    var s3 := Apply(s2, es[2]);
    ss := [s0, s1, s2, s3, Apply(s3, es[3])];
  }

  /** A store by someone else after that look is not covered: here the refresh starts at the same time. */
  lemma LateStoreNotSeen(interval: int) returns (ss: seq<State>, es: seq<Event>)
    requires interval > 0
    ensures Run(ss, es) && |es| == 7 && es[5] == OtherStore && Starts(ss[6], es[6])
    ensures ss[6].callers[0] == Reread(interval, None) && ss[6].now - ss[5].now < interval
  {
    ss, es := CallerLocks(interval);
    var s5 := Apply(ss[4], Relook(0));
    var s6 := Apply(s5, OtherStore);
    ss, es := ss + [s5, s6, Apply(s6, Redecide(0))], es + [Relook(0), OtherStore, Redecide(0)];
  }
}

/** The store and the event loop together: transactions of config.Run over the reload protocol, with other
    commits in between. What the store says is running, and what is being served. */
module RunningTruth {
  import opened Wrappers
  import opened NodeImport
  import opened Store
  import opened StoreHistory
  import opened ChangeDetector
  import R = ReloadProtocol

  /** The config that a run on the store may compile for what it records. */
  type Compiler = (Store, Recording, R.Conf) -> bool

  datatype Plan = Dry | LoadOf(rec: Recording)

  /** Not loaded (yet), loaded, and then committed or lost to a failure of the database; or told of an error. */
  datatype Fate = Open | Swapped | Committed | Lost | Ended

  /** A call's transaction: it reads the store as it was after `at` commits. */
  datatype Call = Call(plan: Plan, conf: R.Conf, snapshot: Store, at: nat, fate: Fate)

  /** Call number `i` is client number `i` of the protocol. `last` is the call whose config was loaded last,
      `said` the one that was committed last; `initial` and `start` are the loop's config and the systems row
      at start-up, the latter from an earlier life of the daemon. */
  datatype World = World(p: R.State, store: Store, commits: nat, calls: seq<Call>, last: Option<nat>, said: Option<nat>,
                         initial: R.Conf, start: Sys)

  datatype Event =
    | Protocol(e: R.Event)
    | Begin
    | Lock(i: nat)
    | Compile(i: nat, plan: Plan, conf: R.Conf)
    | Swap(loadOk: bool, rollbackOk: bool)
    | Unlock(i: nat)
    | Commit(i: nat)
    | Lose(i: nat)
    | Mutate(m: Mutation)

  /** What the rest of the system is: the compiler, the empty config of a dry run, and the dialer. */
  datatype Setting = Setting(comp: Compiler, empty: R.Conf, dial: Dialer)

  ghost predicate Init(w: World)
  {
    && R.Init(w.p) && w.p.loop.conf == w.initial && w.store.sys == w.start
    && w.calls == [] && w.last == None && w.said == None && w.commits == 0
  }

  /** Steps of the protocol that concern neither a transaction nor the exchange of configs. */
  predicate Plain(e: R.Event)
  {
    !e.Ask? && !e.TryLock? && !e.Send? && !e.Swap? && !e.Unlock?
  }

  ghost predicate PlanGood(t: Setting, snapshot: Store, plan: Plan, conf: R.Conf)
  {
    match plan
    case Dry => conf == t.empty
    case LoadOf(rec) => Recordable(snapshot, rec) && t.comp(snapshot, rec, conf)
  }

  /** The call was unlocked without an error and has not ended its transaction. */
  predicate Pending(w: World, i: nat)
  {
    i < |w.calls| && i < |w.p.clients| && w.calls[i].fate == Swapped && w.p.clients[i] == R.Done
  }

  /** A transaction can commit only if nobody has committed since it read; otherwise some database call
      of it fails. */
  ghost predicate Enabled(t: Setting, w: World, e: Event)
  {
    match e
    case Protocol(pe) => R.Enabled(w.p, pe) && Plain(pe)
    case Begin => true
    case Lock(i) => R.Enabled(w.p, R.TryLock(i)) && i < |w.calls|
    case Compile(i, plan, conf) =>
      R.Enabled(w.p, R.Send(i, conf)) && i < |w.calls| && PlanGood(t, w.calls[i].snapshot, plan, conf)
    case Swap(loadOk, rollbackOk) => R.Enabled(w.p, R.Swap(loadOk, rollbackOk)) && w.p.phase.client < |w.calls|
    case Unlock(i) => R.Enabled(w.p, R.Unlock(i)) && i < |w.calls|
    case Commit(i) =>
      Pending(w, i) && w.calls[i].at == w.commits &&
      (w.calls[i].plan.LoadOf? ==> Recordable(w.store, w.calls[i].plan.rec))
    case Lose(i) => Pending(w, i)
    case Mutate(m) => Allowed(w.store, m)
  }

  function SetFate(w: World, i: nat, fate: Fate): World
  {
    if i < |w.calls| then w.(calls := w.calls[i := w.calls[i].(fate := fate)]) else w
  }

  ghost function Step(t: Setting, w: World, e: Event): World
    requires Enabled(t, w, e)
  {
    match e
    case Protocol(pe) => w.(p := R.Apply(w.p, pe))
    case Begin => w.(p := R.Apply(w.p, R.Ask), calls := w.calls + [Call(Dry, t.empty, w.store, w.commits, Open)])
    case Lock(i) =>
      w.(p := R.Apply(w.p, R.TryLock(i)), calls := w.calls[i := w.calls[i].(snapshot := w.store, at := w.commits)])
    case Compile(i, plan, conf) =>
      w.(p := R.Apply(w.p, R.Send(i, conf)), calls := w.calls[i := w.calls[i].(plan := plan, conf := conf)])
    case Swap(loadOk, rollbackOk) =>
      var i := w.p.phase.client;
      var w' := w.(p := R.Apply(w.p, R.Swap(loadOk, rollbackOk)));
      if loadOk then SetFate(w', i, Swapped).(last := Some(i)) else w'
    case Unlock(i) =>
      var w' := w.(p := R.Apply(w.p, R.Unlock(i)));
      if w.p.clients[i].failed then SetFate(w', i, Ended) else w'
    case Commit(i) =>
      var store := match w.calls[i].plan case Dry => w.store.(sys := w.store.sys.(running := false))
                                         case LoadOf(rec) => Recorded(w.store, rec);
      SetFate(w, i, Committed).(store := store, commits := w.commits + 1, said := Some(i))
    case Lose(i) => SetFate(w, i, Lost)
    case Mutate(m) => w.(store := Apply(t.dial, w.store, m), commits := w.commits + 1)
  }

  ghost predicate Run(t: Setting, ws: seq<World>, es: seq<Event>)
  {
    && |ws| == |es| + 1 && Init(ws[0])
    && forall k :: 0 <= k < |es| ==> Enabled(t, ws[k], es[k]) && ws[k + 1] == Step(t, ws[k], es[k])
  }

  // ---- The calls follow the protocol ----

  /** The step of the protocol that the event contains. */
  function ProtocolStep(e: Event): Option<R.Event>
  {
    match e
    case Protocol(pe) => Some(pe)
    case Begin => Some(R.Ask)
    case Lock(i) => Some(R.TryLock(i))
    case Compile(i, _, conf) => Some(R.Send(i, conf))
    case Swap(loadOk, rollbackOk) => Some(R.Swap(loadOk, rollbackOk))
    case Unlock(i) => Some(R.Unlock(i))
    case _ => None
  }

  lemma FollowsProtocol(t: Setting, w: World, e: Event)
    requires Enabled(t, w, e)
    ensures if ProtocolStep(e).Some? then R.Step(w.p, ProtocolStep(e).value, Step(t, w, e).p)
            else Step(t, w, e).p == w.p
  {
  }

  /** Whether the loop has loaded the config of the call that it has yet to answer. */
  predicate AnswerDue(p: R.State, i: nat)
  {
    p.phase == R.Live && p.loop.reloading && p.loop.callback == Some(i)
  }

  /** A client's config is its call's; its call is open until its config is loaded, and swapped after that. */
  predicate ClientGood(w: World, i: nat)
    requires i < |w.calls| && i < |w.p.clients|
  {
    var (k, c) := (w.calls[i], w.p.clients[i]);
    && (c.Sending? || c.Waiting? || c.Recording? ==> k.conf == c.conf)
    && (c.Asking? || c.Building? || c.Sending? || w.p.phase == R.Loading(i) ==> k.fate == Open)
    && (AnswerDue(w.p, i) ==> k.fate == if w.p.loop.errReload then Open else Swapped)
    && (c.Recording? ==> k.fate == if c.failed then Open else Swapped)
  }

  ghost predicate LinkInv(w: World)
  {
    && R.ClientsInv(w.p) && |w.calls| == |w.p.clients|
    && forall i :: 0 <= i < |w.calls| ==> ClientGood(w, i)
  }

  lemma PlainKeeps(p: R.State, pe: R.Event)
    requires R.Enabled(p, pe) && Plain(pe)
    ensures R.Apply(p, pe).loop.conf == p.loop.conf && |R.Apply(p, pe).clients| == |p.clients|
    ensures R.Apply(p, pe).lock == p.lock || R.Apply(p, pe).lock == None
  {
  }

  lemma ProtocolKeepsClient(t: Setting, w: World, pe: R.Event, i: nat)
    requires LinkInv(w) && R.Enabled(w.p, pe) && Plain(pe) && i < |w.calls|
    ensures var p' := R.Apply(w.p, pe); i < |p'.clients| && ClientGood(w.(p := p'), i)
  {
    assert ClientGood(w, i);
  }

  lemma SwapKeepsClient(t: Setting, w: World, e: Event, i: nat)
    requires LinkInv(w) && Enabled(t, w, e) && e.Swap? && i < |w.calls|
    ensures var w' := Step(t, w, e); i < |w'.calls| && i < |w'.p.clients| && ClientGood(w', i)
  {
    assert ClientGood(w, i);
  }

  lemma LockKeepsClient(t: Setting, w: World, e: Event, i: nat)
    requires LinkInv(w) && Enabled(t, w, e) && (e.Begin? || e.Lock?) && i < |w.calls|
    ensures var w' := Step(t, w, e); i < |w'.calls| && i < |w'.p.clients| && ClientGood(w', i)
  {
    assert ClientGood(w, i);
  }

  lemma UnlockKeepsClient(t: Setting, w: World, e: Event, i: nat)
    requires LinkInv(w) && Enabled(t, w, e) && (e.Compile? || e.Unlock?) && i < |w.calls|
    ensures var w' := Step(t, w, e); i < |w'.calls| && i < |w'.p.clients| && ClientGood(w', i)
  {
    assert ClientGood(w, i);
  }

  lemma CallKeepsClient(t: Setting, w: World, e: Event, i: nat)
    requires LinkInv(w) && Enabled(t, w, e) && (e.Begin? || e.Lock? || e.Compile? || e.Unlock?) && i < |w.calls|
    ensures var w' := Step(t, w, e); i < |w'.calls| && i < |w'.p.clients| && ClientGood(w', i)
  {
    if e.Begin? || e.Lock? { LockKeepsClient(t, w, e, i); } else { UnlockKeepsClient(t, w, e, i); }
  }

  lemma EndKeepsClient(t: Setting, w: World, e: Event, i: nat)
    requires LinkInv(w) && Enabled(t, w, e) && (e.Commit? || e.Lose? || e.Mutate?) && i < |w.calls|
    ensures var w' := Step(t, w, e); i < |w'.calls| && i < |w'.p.clients| && ClientGood(w', i)
  {
    assert ClientGood(w, i);
  }

  lemma ClientGoodStep(t: Setting, w: World, e: Event, i: nat)
    requires LinkInv(w) && Enabled(t, w, e) && i < |w.calls|
    ensures var w' := Step(t, w, e); i < |w'.calls| && i < |w'.p.clients| && ClientGood(w', i)
  {
    match e
    case Protocol(pe) => ProtocolKeepsClient(t, w, pe, i);
    case Swap(_, _) => SwapKeepsClient(t, w, e, i);
    case Commit(_) => EndKeepsClient(t, w, e, i);
    case Lose(_) => EndKeepsClient(t, w, e, i);
    case Mutate(_) => EndKeepsClient(t, w, e, i);
    case _ => CallKeepsClient(t, w, e, i);
  }

  lemma OwnCallsGrow(t: Setting, w: World, e: Event)
    requires LinkInv(w) && Enabled(t, w, e) && !e.Protocol?
    ensures var w' := Step(t, w, e); |w'.calls| == |w'.p.clients| == |w.calls| + if e.Begin? then 1 else 0
  {
  }

  lemma CallsGrow(t: Setting, w: World, e: Event)
    requires LinkInv(w) && Enabled(t, w, e)
    ensures var w' := Step(t, w, e); |w'.calls| == |w'.p.clients| == |w.calls| + if e.Begin? then 1 else 0
  {
    if e.Protocol? { PlainKeeps(w.p, e.e); } else { OwnCallsGrow(t, w, e); }
  }

  lemma NewClientGood(t: Setting, w: World)
    requires LinkInv(w)
    ensures var w' := Step(t, w, Begin);
            |w.calls| < |w'.calls| && |w.calls| < |w'.p.clients| && ClientGood(w', |w.calls|)
  {
  }

  lemma LinkInvStep(t: Setting, w: World, e: Event)
    requires LinkInv(w) && Enabled(t, w, e)
    ensures LinkInv(Step(t, w, e))
  {
    var w' := Step(t, w, e);
    FollowsProtocol(t, w, e);
    CallsGrow(t, w, e);
    if ProtocolStep(e).Some? { R.ClientsInvStep(w.p, ProtocolStep(e).value, w'.p); }
    forall i | 0 <= i < |w'.calls| ensures ClientGood(w', i) {
      if i < |w.calls| { ClientGoodStep(t, w, e, i); } else { NewClientGood(t, w); }
    }
  }

  // ---- What is loaded, committed and said ----

  /** The loop's config is that of the call loaded last. */
  ghost predicate LoadedInv(w: World)
  {
    match w.last
    case None => w.p.loop.conf == w.initial
    case Some(l) =>
      && l < |w.calls| && w.p.loop.conf == w.calls[l].conf
      && (w.calls[l].fate == Swapped || w.calls[l].fate == Committed || w.calls[l].fate == Lost)
  }

  lemma SwapLoads(t: Setting, w: World, e: Event)
    requires LinkInv(w) && LoadedInv(w) && Enabled(t, w, e) && e.Swap?
    ensures LoadedInv(Step(t, w, e))
  {
    assert ClientGood(w, w.p.phase.client);
    if w.last.Some? { assert ClientGood(w, w.last.value); }
  }

  /** A call that begins, locks, sends or unlocks. */
  predicate Opening(e: Event)
  {
    e.Begin? || e.Lock? || e.Compile? || e.Unlock?
  }

  lemma OpeningKeepsCall(t: Setting, w: World, e: Event, i: nat)
    requires LinkInv(w) && Enabled(t, w, e) && Opening(e) && i < |w.calls| && w.calls[i].fate != Open
    ensures i < |Step(t, w, e).calls| && Step(t, w, e).calls[i] == w.calls[i]
  {
    assert ClientGood(w, i);
  }

  lemma OpeningKeeps(t: Setting, w: World, e: Event)
    requires Enabled(t, w, e) && Opening(e)
    ensures var w' := Step(t, w, e);
            && w'.last == w.last && w'.said == w.said && w'.store == w.store && w'.commits == w.commits
            && w'.initial == w.initial && w'.start == w.start && w'.p.loop == w.p.loop
  {
  }

  lemma LoadedFrom(w: World, w': World)
    requires LoadedInv(w) && w'.last == w.last && w'.p.loop.conf == w.p.loop.conf && w'.initial == w.initial
    requires w.last.Some? ==> w.last.value < |w'.calls| && w'.calls[w.last.value] == w.calls[w.last.value]
    ensures LoadedInv(w')
  {
  }

  lemma CallKeepsLoaded(t: Setting, w: World, e: Event)
    requires LinkInv(w) && LoadedInv(w) && Enabled(t, w, e) && Opening(e)
    ensures LoadedInv(Step(t, w, e))
  {
    OpeningKeeps(t, w, e);
    if w.last.Some? { OpeningKeepsCall(t, w, e, w.last.value); }
    LoadedFrom(w, Step(t, w, e));
  }

  lemma EndKeepsLoaded(t: Setting, w: World, e: Event)
    requires LinkInv(w) && LoadedInv(w) && Enabled(t, w, e) && (e.Commit? || e.Lose? || e.Mutate?)
    ensures LoadedInv(Step(t, w, e))
  {
    if w.last.Some? { assert ClientGood(w, w.last.value); }
  }

  lemma OthersKeepLoaded(t: Setting, w: World, e: Event)
    requires LinkInv(w) && LoadedInv(w) && Enabled(t, w, e) && !e.Protocol? && !e.Swap?
    ensures LoadedInv(Step(t, w, e))
  {
    if e.Commit? || e.Lose? || e.Mutate? { EndKeepsLoaded(t, w, e); } else { CallKeepsLoaded(t, w, e); }
  }

  lemma LoadedStep(t: Setting, w: World, e: Event)
    requires LinkInv(w) && LoadedInv(w) && Enabled(t, w, e)
    ensures LoadedInv(Step(t, w, e))
  {
    match e
    case Protocol(pe) => PlainKeeps(w.p, pe);
    case Swap(_, _) => SwapLoads(t, w, e);
    case _ => OthersKeepLoaded(t, w, e);
  }

  /** Calls read in the order in which they are loaded; a committed one read before the last commit. */
  predicate CallTimed(w: World, i: nat)
    requires i < |w.calls|
  {
    && w.calls[i].at <= w.commits && (w.calls[i].fate == Committed ==> w.calls[i].at < w.commits)
    && (w.calls[i].fate == Swapped ==>
        w.last.Some? && w.last.value < |w.calls| && w.calls[i].at <= w.calls[w.last.value].at)
    && (w.calls[i].fate == Swapped && w.p.lock.Some? && w.p.lock.value < |w.calls| ==>
        w.calls[i].at <= w.calls[w.p.lock.value].at)
  }

  ghost predicate TimesInv(w: World)
  {
    forall i :: 0 <= i < |w.calls| ==> CallTimed(w, i)
  }

  lemma LockKeepsTimes(t: Setting, w: World, e: Event, i: nat)
    requires LinkInv(w) && LoadedInv(w) && TimesInv(w) && Enabled(t, w, e) && i < |w.calls|
    requires e.Begin? || e.Lock?
    ensures i < |Step(t, w, e).calls| && CallTimed(Step(t, w, e), i)
  {
    assert CallTimed(w, i) && ClientGood(w, i);
    if w.last.Some? { assert ClientGood(w, w.last.value); }
    if e.Lock? { assert ClientGood(w, e.i); }
  }

  lemma SendKeepsTimes(t: Setting, w: World, e: Event, i: nat)
    requires LinkInv(w) && LoadedInv(w) && TimesInv(w) && Enabled(t, w, e) && i < |w.calls| && e.Compile?
    ensures i < |Step(t, w, e).calls| && CallTimed(Step(t, w, e), i)
  {
    assert CallTimed(w, i) && ClientGood(w, i);
    if w.last.Some? { assert ClientGood(w, w.last.value); }
  }

  lemma UnlockKeepsTimes(t: Setting, w: World, e: Event, i: nat)
    requires LinkInv(w) && LoadedInv(w) && TimesInv(w) && Enabled(t, w, e) && i < |w.calls| && e.Unlock?
    ensures i < |Step(t, w, e).calls| && CallTimed(Step(t, w, e), i)
  {
    assert CallTimed(w, i) && ClientGood(w, i);
    if w.last.Some? { assert ClientGood(w, w.last.value); }
  }

  lemma OthersKeepTimes(t: Setting, w: World, e: Event, i: nat)
    requires LinkInv(w) && LoadedInv(w) && TimesInv(w) && Enabled(t, w, e) && i < |w.calls|
    requires e.Lock? || e.Compile? || e.Begin? || e.Unlock?
    ensures i < |Step(t, w, e).calls| && CallTimed(Step(t, w, e), i)
  {
    if e.Begin? || e.Lock? {
      LockKeepsTimes(t, w, e, i);
    } else if e.Compile? {
      SendKeepsTimes(t, w, e, i);
    } else {
      UnlockKeepsTimes(t, w, e, i);
    }
  }

  lemma SwapKeepsTimes(t: Setting, w: World, e: Event, i: nat)
    requires LinkInv(w) && LoadedInv(w) && TimesInv(w) && Enabled(t, w, e) && i < |w.calls| && e.Swap?
    ensures i < |Step(t, w, e).calls| && CallTimed(Step(t, w, e), i)
  {
    assert CallTimed(w, i) && ClientGood(w, w.p.phase.client) && CallTimed(w, w.p.phase.client);
  }

  lemma EndKeepsTimes(t: Setting, w: World, e: Event, i: nat)
    requires LinkInv(w) && TimesInv(w) && Enabled(t, w, e) && i < |w.calls| && (e.Commit? || e.Lose? || e.Mutate?)
    ensures i < |Step(t, w, e).calls| && CallTimed(Step(t, w, e), i)
  {
    assert CallTimed(w, i);
  }

  lemma CallTimedStep(t: Setting, w: World, e: Event, i: nat)
    requires LinkInv(w) && LoadedInv(w) && TimesInv(w) && Enabled(t, w, e) && i < |w.calls|
    ensures i < |Step(t, w, e).calls| && CallTimed(Step(t, w, e), i)
  {
    assert CallTimed(w, i);
    match e
    case Protocol(pe) => PlainKeeps(w.p, pe);
    case Swap(_, _) => SwapKeepsTimes(t, w, e, i);
    case Commit(_) => EndKeepsTimes(t, w, e, i);
    case Lose(_) => EndKeepsTimes(t, w, e, i);
    case Mutate(_) => EndKeepsTimes(t, w, e, i);
    case _ => OthersKeepTimes(t, w, e, i);
  }

  lemma TimesStep(t: Setting, w: World, e: Event)
    requires LinkInv(w) && LoadedInv(w) && TimesInv(w) && Enabled(t, w, e)
    ensures TimesInv(Step(t, w, e))
  {
    CallsGrow(t, w, e);
    forall i | 0 <= i < |Step(t, w, e).calls| ensures CallTimed(Step(t, w, e), i) {
      if i < |w.calls| { CallTimedStep(t, w, e, i); } else { NewCallTimed(t, w); }
    }
  }

  lemma NewCallTimed(t: Setting, w: World)
    requires LinkInv(w)
    ensures |w.calls| < |Step(t, w, Begin).calls| && CallTimed(Step(t, w, Begin), |w.calls|)
  {
  }

  /** A call that was committed is the one that the store speaks of. */
  predicate SaidIs(w: World, i: nat)
  {
    i < |w.calls| && w.calls[i].fate == Committed && w.said == Some(i)
  }

  /** The call loaded last is the one committed last, or is still pending, or was lost. */
  ghost predicate SaidInv(w: World)
  {
    && (w.said.Some? ==> w.last.Some? && SaidIs(w, w.said.value))
    && (w.last.Some? && w.last.value < |w.calls| && w.calls[w.last.value].fate == Committed ==> SaidIs(w, w.last.value))
  }

  lemma CommitSaid(t: Setting, w: World, i: nat)
    requires LinkInv(w) && LoadedInv(w) && TimesInv(w) && SaidInv(w) && Enabled(t, w, Commit(i))
    ensures SaidInv(Step(t, w, Commit(i)))
  {
    assert CallTimed(w, i) && CallTimed(w, w.last.value);
  }

  lemma SaidFrom(w: World, w': World)
    requires SaidInv(w) && LoadedInv(w) && w'.last == w.last && w'.said == w.said
    requires w.last.Some? ==> w.last.value < |w'.calls| && w'.calls[w.last.value] == w.calls[w.last.value]
    requires w.said.Some? ==> w.said.value < |w'.calls| && w'.calls[w.said.value] == w.calls[w.said.value]
    ensures SaidInv(w')
  {
  }

  lemma CallKeepsSaid(t: Setting, w: World, e: Event)
    requires LinkInv(w) && LoadedInv(w) && SaidInv(w) && Enabled(t, w, e) && Opening(e)
    ensures SaidInv(Step(t, w, e))
  {
    OpeningKeeps(t, w, e);
    if w.last.Some? { OpeningKeepsCall(t, w, e, w.last.value); }
    if w.said.Some? { OpeningKeepsCall(t, w, e, w.said.value); }
    SaidFrom(w, Step(t, w, e));
  }

  lemma EndKeepsSaid(t: Setting, w: World, e: Event)
    requires LinkInv(w) && LoadedInv(w) && SaidInv(w) && Enabled(t, w, e) && (e.Swap? || e.Lose? || e.Mutate?)
    ensures SaidInv(Step(t, w, e))
  {
    if w.said.Some? { assert ClientGood(w, w.said.value); }
    if w.last.Some? { assert ClientGood(w, w.last.value); }
    if e.Swap? { assert ClientGood(w, w.p.phase.client); }
  }

  lemma OthersKeepSaid(t: Setting, w: World, e: Event)
    requires LinkInv(w) && LoadedInv(w) && SaidInv(w) && Enabled(t, w, e) && !e.Commit? && !e.Protocol?
    ensures SaidInv(Step(t, w, e))
  {
    if e.Swap? || e.Lose? || e.Mutate? { EndKeepsSaid(t, w, e); } else { CallKeepsSaid(t, w, e); }
  }

  lemma EndKeepsSaidCall(t: Setting, w: World, e: Event)
    requires LinkInv(w) && SaidInv(w) && Enabled(t, w, e) && (e.Swap? || e.Lose? || e.Mutate?) && w.said.Some?
    ensures var w' := Step(t, w, e);
            w'.said == w.said && w.said.value < |w'.calls| && w'.calls[w.said.value] == w.calls[w.said.value]
  {
    assert ClientGood(w, w.said.value);
  }

  /** The call that the store speaks of changes only by a commit, and the store only by that or a mutation. */
  lemma SaidCallKept(t: Setting, w: World, e: Event)
    requires LinkInv(w) && SaidInv(w) && Enabled(t, w, e) && !e.Commit? && !e.Mutate?
    ensures var w' := Step(t, w, e);
            && w'.store == w.store && w'.said == w.said
            && (w.said.Some? ==> w.said.value < |w'.calls| && w'.calls[w.said.value] == w.calls[w.said.value])
  {
    if Opening(e) { OpeningKeeps(t, w, e); }
    if w.said.Some? {
      if Opening(e) {
        OpeningKeepsCall(t, w, e, w.said.value);
      } else if !e.Protocol? {
        EndKeepsSaidCall(t, w, e);
      }
    }
  }

  // ---- What the store says ----

  /** The call's transaction has read the store and may still write. */
  predicate Reading(w: World, i: nat)
    requires i < |w.calls| && i < |w.p.clients|
  {
    w.calls[i].fate == Swapped || R.Critical(w.p.clients[i])
  }

  /** What a call sent was compiled from what it read, which is the present store if nobody committed since. */
  ghost predicate ReadGood(t: Setting, w: World, i: nat)
    requires i < |w.calls| && i < |w.p.clients|
  {
    var (k, c) := (w.calls[i], w.p.clients[i]);
    && (Reading(w, i) && k.at == w.commits ==> k.snapshot == w.store)
    && (k.fate != Open || c.Sending? || c.Waiting? || c.Recording? ==> PlanGood(t, k.snapshot, k.plan, k.conf))
  }

  ghost predicate ReadsInv(t: Setting, w: World)
  {
    |w.calls| == |w.p.clients| && forall i :: 0 <= i < |w.calls| ==> ReadGood(t, w, i)
  }

  lemma ProtocolKeepsReads(t: Setting, w: World, pe: R.Event, i: nat)
    requires LinkInv(w) && ReadsInv(t, w) && R.Enabled(w.p, pe) && Plain(pe) && i < |w.calls|
    ensures var p' := R.Apply(w.p, pe); i < |p'.clients| && ReadGood(t, w.(p := p'), i)
  {
    assert ReadGood(t, w, i) && ClientGood(w, i);
  }

  lemma SwapKeepsReads(t: Setting, w: World, e: Event, i: nat)
    requires LinkInv(w) && ReadsInv(t, w) && Enabled(t, w, e) && e.Swap? && i < |w.calls|
    ensures var w' := Step(t, w, e); i < |w'.calls| && i < |w'.p.clients| && ReadGood(t, w', i)
  {
    assert ReadGood(t, w, i) && ClientGood(w, w.p.phase.client) && ReadGood(t, w, w.p.phase.client);
  }

  lemma LockKeepsReads(t: Setting, w: World, e: Event, i: nat)
    requires LinkInv(w) && ReadsInv(t, w) && Enabled(t, w, e) && i < |w.calls|
    requires e.Begin? || e.Lock?
    ensures var w' := Step(t, w, e); i < |w'.calls| && i < |w'.p.clients| && ReadGood(t, w', i)
  {
    assert ReadGood(t, w, i) && ClientGood(w, i);
  }

  lemma UnlockKeepsReads(t: Setting, w: World, e: Event, i: nat)
    requires LinkInv(w) && ReadsInv(t, w) && Enabled(t, w, e) && i < |w.calls|
    requires e.Compile? || e.Unlock?
    ensures var w' := Step(t, w, e); i < |w'.calls| && i < |w'.p.clients| && ReadGood(t, w', i)
  {
    assert ReadGood(t, w, i) && ClientGood(w, i);
  }

  lemma CallKeepsReads(t: Setting, w: World, e: Event, i: nat)
    requires LinkInv(w) && ReadsInv(t, w) && Enabled(t, w, e) && i < |w.calls|
    requires e.Begin? || e.Lock? || e.Compile? || e.Unlock?
    ensures var w' := Step(t, w, e); i < |w'.calls| && i < |w'.p.clients| && ReadGood(t, w', i)
  {
    if e.Begin? || e.Lock? { LockKeepsReads(t, w, e, i); } else { UnlockKeepsReads(t, w, e, i); }
  }

  lemma EndKeepsReads(t: Setting, w: World, e: Event, i: nat)
    requires LinkInv(w) && TimesInv(w) && ReadsInv(t, w) && Enabled(t, w, e) && (e.Commit? || e.Lose? || e.Mutate?)
    requires i < |w.calls|
    ensures var w' := Step(t, w, e); i < |w'.calls| && i < |w'.p.clients| && ReadGood(t, w', i)
  {
    assert ReadGood(t, w, i) && CallTimed(w, i);
  }

  lemma ReadGoodStep(t: Setting, w: World, e: Event, i: nat)
    requires LinkInv(w) && TimesInv(w) && ReadsInv(t, w) && Enabled(t, w, e) && i < |w.calls|
    ensures var w' := Step(t, w, e); i < |w'.calls| && i < |w'.p.clients| && ReadGood(t, w', i)
  {
    match e
    case Protocol(pe) => ProtocolKeepsReads(t, w, pe, i);
    case Swap(_, _) => SwapKeepsReads(t, w, e, i);
    case Commit(_) => EndKeepsReads(t, w, e, i);
    case Lose(_) => EndKeepsReads(t, w, e, i);
    case Mutate(_) => EndKeepsReads(t, w, e, i);
    case _ => CallKeepsReads(t, w, e, i);
  }

  lemma NewReadGood(t: Setting, w: World)
    requires LinkInv(w)
    ensures var w' := Step(t, w, Begin);
            |w.calls| < |w'.calls| && |w.calls| < |w'.p.clients| && ReadGood(t, w', |w.calls|)
  {
  }

  lemma ReadsStep(t: Setting, w: World, e: Event)
    requires LinkInv(w) && TimesInv(w) && ReadsInv(t, w) && Enabled(t, w, e)
    ensures ReadsInv(t, Step(t, w, e))
  {
    var w' := Step(t, w, e);
    CallsGrow(t, w, e);
    forall i | 0 <= i < |w'.calls| ensures ReadGood(t, w', i) {
      if i < |w.calls| { ReadGoodStep(t, w, e, i); } else { NewReadGood(t, w); }
    }
  }

  /** While the store says "running", its record is what call `i` read and compiled. */
  ghost predicate Speaks(t: Setting, store: Store, call: Call)
  {
    && PlanGood(t, call.snapshot, call.plan, call.conf)
    && (store.sys.running ==> call.plan.LoadOf? && store.sys == Recorded(call.snapshot, call.plan.rec).sys)
  }

  ghost predicate SpeaksInv(t: Setting, w: World)
  {
    w.said.Some? ==> w.said.value < |w.calls| && Speaks(t, w.store, w.calls[w.said.value])
  }

  lemma SysKept(dial: Dialer, s: Store, m: Mutation)
    ensures Apply(dial, s, m).sys == s.sys || !Apply(dial, s, m).sys.running
  {
  }

  lemma CommitSpeaks(t: Setting, w: World, i: nat)
    requires LinkInv(w) && ReadsInv(t, w) && Enabled(t, w, Commit(i))
    ensures SpeaksInv(t, Step(t, w, Commit(i)))
  {
    assert ReadGood(t, w, i);
  }

  lemma SpeaksFrom(t: Setting, w: World, w': World)
    requires SpeaksInv(t, w) && w'.said == w.said && (w'.store.sys == w.store.sys || !w'.store.sys.running)
    requires w.said.Some? ==> w.said.value < |w'.calls| && w'.calls[w.said.value] == w.calls[w.said.value]
    ensures SpeaksInv(t, w')
  {
  }

  lemma CallSpeaks(t: Setting, w: World, e: Event)
    requires LinkInv(w) && SaidInv(w) && SpeaksInv(t, w) && Enabled(t, w, e) && Opening(e)
    ensures SpeaksInv(t, Step(t, w, e))
  {
    OpeningKeeps(t, w, e);
    if w.said.Some? { OpeningKeepsCall(t, w, e, w.said.value); }
    SpeaksFrom(t, w, Step(t, w, e));
  }

  lemma EndSpeaks(t: Setting, w: World, e: Event)
    requires LinkInv(w) && SaidInv(w) && SpeaksInv(t, w) && Enabled(t, w, e) && (e.Swap? || e.Lose? || e.Mutate?)
    ensures SpeaksInv(t, Step(t, w, e))
  {
    if w.said.Some? { assert ClientGood(w, w.said.value); }
    if e.Mutate? { SysKept(t.dial, w.store, e.m); }
    SpeaksFrom(t, w, Step(t, w, e));
  }

  lemma OthersSpeak(t: Setting, w: World, e: Event)
    requires LinkInv(w) && SaidInv(w) && SpeaksInv(t, w) && Enabled(t, w, e) && !e.Commit? && !e.Protocol?
    ensures SpeaksInv(t, Step(t, w, e))
  {
    if Opening(e) { CallSpeaks(t, w, e); } else { EndSpeaks(t, w, e); }
  }

  /** Until a call is committed the store says what it said at start-up, or that nothing is running. */
  predicate StartInv(w: World)
  {
    w.said.None? ==> w.store.sys == w.start || !w.store.sys.running
  }

  lemma StartStep(t: Setting, w: World, e: Event)
    requires StartInv(w) && Enabled(t, w, e)
    ensures StartInv(Step(t, w, e))
  {
    match e
    case Mutate(m) => SysKept(t.dial, w.store, m);
    case _ => if Opening(e) { OpeningKeeps(t, w, e); }
  }

  // ---- Over all runs ----

  ghost predicate WorldInv(t: Setting, w: World)
  {
    && LinkInv(w) && R.PlanesInv(w.p) && LoadedInv(w) && TimesInv(w) && SaidInv(w)
    && ReadsInv(t, w) && SpeaksInv(t, w) && StartInv(w)
  }

  lemma SaidStep(t: Setting, w: World, e: Event)
    requires WorldInv(t, w) && Enabled(t, w, e)
    ensures SaidInv(Step(t, w, e)) && SpeaksInv(t, Step(t, w, e))
  {
    match e
    case Protocol(_) =>
    case Commit(i) => CommitSaid(t, w, i); CommitSpeaks(t, w, i);
    case _ => OthersKeepSaid(t, w, e); OthersSpeak(t, w, e);
  }

  lemma WorldInvStep(t: Setting, w: World, e: Event)
    requires WorldInv(t, w) && Enabled(t, w, e)
    ensures WorldInv(t, Step(t, w, e))
  {
    LinkInvStep(t, w, e);
    FollowsProtocol(t, w, e);
    if ProtocolStep(e).Some? { R.PlanesInvStep(w.p, ProtocolStep(e).value, Step(t, w, e).p); }
    LoadedStep(t, w, e);
    TimesStep(t, w, e);
    SaidStep(t, w, e);
    StartStep(t, w, e);
    ReadsStep(t, w, e);
  }

  lemma {:induction false} RunInv(t: Setting, ws: seq<World>, es: seq<Event>, k: nat)
    requires Run(t, ws, es) && k <= |es|
    ensures WorldInv(t, ws[k])
  {
    if k > 0 {
      RunInv(t, ws, es, k - 1);
      WorldInvStep(t, ws[k - 1], es[k - 1]);
    }
  }

  /** No transaction whose config was loaded is still open. */
  ghost predicate Settled(w: World)
  {
    forall i :: 0 <= i < |w.calls| ==> w.calls[i].fate != Swapped
  }

  predicate LastLost(w: World)
  {
    w.last.Some? && w.last.value < |w.calls| && w.calls[w.last.value].fate == Lost
  }

  function Served(w: World): R.Conf
  {
    if w.p.loop.plane < |w.p.planes| then w.p.planes[w.p.loop.plane].conf else w.initial
  }

  /** What is being served is what the store speaks of: while it says "running", the open plane was built
      from a config that was compiled from the recorded store; after a dry run, from the empty config; and
      before any call was committed it is the initial one, and the store does not say "running". */
  ghost predicate Truthful(t: Setting, w: World)
  {
    && w.p.loop.plane < |w.p.planes| && !w.p.planes[w.p.loop.plane].closed
    && match w.said
       case None => Served(w) == w.initial && !w.store.sys.running
       case Some(i) => i < |w.calls| && Served(w) == w.calls[i].conf && Speaks(t, w.store, w.calls[i])
  }

  /** In every run, when the loop is up and no transaction is open: the call loaded last is the one that
      was committed last, if and only if it was not lost to a database failure after its reload; and
      then the store tells the truth about what is served, if and only if a call has been committed or
      the store does not say "running". Otherwise it still says what it said before the start. */
  lemma StoreTellsTruth(t: Setting, ws: seq<World>, es: seq<Event>, k: nat)
    requires Run(t, ws, es) && k <= |es| && R.Up(ws[k].p) && Settled(ws[k])
    ensures ws[k].said == ws[k].last <==> !LastLost(ws[k])
    ensures !LastLost(ws[k]) ==> (Truthful(t, ws[k]) <==> ws[k].said.Some? || !ws[k].store.sys.running)
    ensures !LastLost(ws[k]) && ws[k].said.None? ==> Served(ws[k]) == ws[0].initial
    ensures ws[k].said.None? && ws[k].store.sys.running ==> ws[k].store.sys == ws[0].store.sys
  {
    RunInv(t, ws, es, k);
    StartKept(t, ws, es, k);
  }

  lemma {:induction false} StartKept(t: Setting, ws: seq<World>, es: seq<Event>, k: nat)
    requires Run(t, ws, es) && k <= |es|
    ensures ws[k].initial == ws[0].initial && ws[k].start == ws[0].store.sys
  {
    if k > 0 {
      StartKept(t, ws, es, k - 1);
      KeepsStart(t, ws[k - 1], es[k - 1]);
    }
  }

  lemma KeepsStart(t: Setting, w: World, e: Event)
    requires Enabled(t, w, e)
    ensures Step(t, w, e).initial == w.initial && Step(t, w, e).start == w.start
  {
  }

  // ---- The excluded case ----

  lemma RunExtends(t: Setting, ws: seq<World>, es: seq<Event>, e: Event) returns (ws': seq<World>, es': seq<Event>)
    requires Run(t, ws, es) && Enabled(t, ws[|es|], e)
    ensures Run(t, ws', es') && ws' == ws + [Step(t, ws[|es|], e)] && es' == es + [e]
  {
    ws', es' := ws + [Step(t, ws[|es|], e)], es + [e];
    forall k | 0 <= k < |es'| ensures Enabled(t, ws'[k], es'[k]) && ws'[k + 1] == Step(t, ws'[k], es'[k]) {
      if k < |es| {
        assert ws'[k] == ws[k] && es'[k] == es[k] && ws'[k + 1] == ws[k + 1];
      }
    }
  }

  function Fresh(initial: R.Conf, s: Store): World
  {
    World(R.State(R.Live, R.Loop(0, initial, false, false, None, false),
                  [R.Plane(initial, false, true, None, R.Unserved)],
                  None, [], None, 0, 0, 0),
          s, 0, [], None, None, initial, s.sys)
  }

  /** A call begins and locks. */
  lemma CallLocks(t: Setting, initial: R.Conf, s: Store) returns (ws: seq<World>, es: seq<Event>)
    ensures Run(t, ws, es) && |es| == 2 && ws[2].calls == [Call(Dry, t.empty, s, 0, Open)]
    ensures ws[2].p == Fresh(initial, s).p.(clients := [R.Building], lock := Some(0))
    ensures ws[2] == Fresh(initial, s).(p := ws[2].p, calls := ws[2].calls)
  {
    ws, es := [Fresh(initial, s)], [];
    ws, es := RunExtends(t, ws, es, Begin);
    ws, es := RunExtends(t, ws, es, Lock(0));
  }

  /** It compiles and sends. */
  lemma CallSends(t: Setting, initial: R.Conf, s: Store, plan: Plan, conf: R.Conf)
    returns (ws: seq<World>, es: seq<Event>)
    requires PlanGood(t, s, plan, conf)
    ensures Run(t, ws, es) && |es| == 3 && ws[3].calls == [Call(plan, conf, s, 0, Open)]
    ensures ws[3].p == Fresh(initial, s).p.(clients := [R.Sending(conf)], lock := Some(0))
    ensures ws[3] == Fresh(initial, s).(p := ws[3].p, calls := ws[3].calls)
  {
    ws, es := CallLocks(t, initial, s);
    ws, es := RunExtends(t, ws, es, Compile(0, plan, conf));
  }

  /** Its config is received, and the first goroutine reads `c`. */
  lemma CallReceived(t: Setting, initial: R.Conf, s: Store, plan: Plan, conf: R.Conf)
    returns (ws: seq<World>, es: seq<Event>)
    requires PlanGood(t, s, plan, conf)
    ensures Run(t, ws, es) && |es| == 5 && ws[5].calls == [Call(plan, conf, s, 0, Open)]
    ensures ws[5].p == Fresh(initial, s).p.(phase := R.Loading(0), first := Some(0), lock := Some(0),
                                            planes := [R.Plane(initial, false, false, None, R.Serving)],
                                            clients := [R.Waiting(conf, initial)])
    ensures ws[5] == Fresh(initial, s).(p := ws[5].p, calls := ws[5].calls)
  {
    ws, es := CallSends(t, initial, s, plan, conf);
    ws, es := RunExtends(t, ws, es, Protocol(R.TakeReload(0)));
    ws, es := RunExtends(t, ws, es, Protocol(R.Boot));
  }

  /** It is loaded. */
  lemma CallLoads(t: Setting, initial: R.Conf, s: Store, plan: Plan, conf: R.Conf)
    returns (ws: seq<World>, es: seq<Event>)
    requires PlanGood(t, s, plan, conf) && conf.subscriptions == []
    ensures Run(t, ws, es) && |es| == 6 && ws[6].calls == [Call(plan, conf, s, 0, Swapped)]
    ensures ws[6] == Fresh(initial, s).(p := ws[6].p, calls := ws[6].calls, last := Some(0))
    ensures var p := ws[6].p;
            && p.phase == R.Live && p.first == Some(0) && p.loop == R.Loop(1, conf, true, false, Some(0), false)
            && |p.planes| == 2 && p.planes[0].server == R.Serving && p.clients == [R.Waiting(conf, initial)]
            && !p.planes[1].closed && p.planes[1].conf == conf && p.lock == Some(0)
  {
    ws, es := CallReceived(t, initial, s, plan, conf);
    ws, es := RunExtends(t, ws, es, Swap(true, true));
  }

  /** The old plane stops, and the call is answered without an error. */
  lemma CallAnswered(t: Setting, initial: R.Conf, s: Store, plan: Plan, conf: R.Conf)
    returns (ws: seq<World>, es: seq<Event>)
    requires PlanGood(t, s, plan, conf) && conf.subscriptions == []
    ensures Run(t, ws, es) && |es| == 8 && ws[8].calls == [Call(plan, conf, s, 0, Swapped)]
    ensures ws[8] == Fresh(initial, s).(p := ws[8].p, calls := ws[8].calls, last := Some(0))
    ensures var p := ws[8].p;
            && p.phase == R.Live && p.loop.plane == 1 && |p.planes| == 2 && !p.planes[1].closed
            && p.planes[1].conf == conf && p.clients == [R.Recording(conf, initial, false)]
  {
    ws, es := CallLoads(t, initial, s, plan, conf);
    ws, es := RunExtends(t, ws, es, Protocol(R.Return(0, true)));
    ws, es := RunExtends(t, ws, es, Protocol(R.TakeStop(0)));
  }

  /** The excluded case is real: the call is answered, then the database fails it. The config is served,
      and the store still says what it said before the call. */
  lemma LostRunServed(t: Setting, initial: R.Conf, s: Store, plan: Plan, conf: R.Conf)
    returns (ws: seq<World>, es: seq<Event>)
    requires PlanGood(t, s, plan, conf) && conf.subscriptions == []
    ensures Run(t, ws, es) && |es| == 10 && R.Up(ws[10].p) && Settled(ws[10]) && LastLost(ws[10])
    ensures ws[10].store == s && ws[10].said == None && ws[10].p.loop.plane == 1 && |ws[10].p.planes| == 2
    ensures ws[10].p.planes[1].conf == conf
    ensures conf != initial ==> !Truthful(t, ws[10])
  {
    ws, es := CallAnswered(t, initial, s, plan, conf);
    ws, es := RunExtends(t, ws, es, Unlock(0));
    ws, es := RunExtends(t, ws, es, Lose(0));
  }
}

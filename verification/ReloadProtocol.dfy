/** The hot-reload protocol: the event loop of dae/run.go, one goroutine per served control plane,
    the callers of `config.Run` under runLock, and the callers of `_errorExit`, as one state
    machine over every interleaving of their steps. */
module ReloadProtocol {
  import opened Wrappers

  /** What the protocol looks at in a dae config; `body` stands for the rest. */
  datatype Conf = Conf(prefer: int, subscriptions: seq<string>, wan: seq<string>, body: int)

  // ---- The event loop's own variables ----

  /** `plane` numbers the current control plane; `listening` says that `listener` is not nil. */
  datatype Loop = Loop(plane: nat, conf: Conf, reloading: bool, errReload: bool, callback: Option<nat>, listening: bool)

  /** The goroutine that serves a plane: not started, inside Serve, blocked on sending nil, or done. */
  datatype Server = Unserved | Serving | Stopped | Gone

  /** `conf` is what the plane was built from, `cacheFrom` the plane whose DNS cache it inherited. */
  datatype Plane = Plane(conf: Conf, closed: bool, bpf: bool, cacheFrom: Option<nat>, server: Server)

  /** The loop's variables after a reload message: the new config if it loads, else the old one again. */
  function AfterReload(l: Loop, plane: nat, conf: Conf, callback: nat, loadOk: bool): Loop
  {
    Loop(plane, if loadOk then conf else l.conf, true, !loadOk, Some(callback), l.listening)
  }

  /** The plane such a reload builds. The DNS cache is kept iff the two IpVersionPrefer agree. */
  function BuiltPlane(l: Loop, conf: Conf, loadOk: bool): Plane
  {
    Plane(if loadOk then conf else l.conf, false, true,
          if l.conf.prefer == conf.prefer then Some(l.plane) else None, Unserved)
  }

  function Retired(p: Plane): Plane
  {
    p.(closed := true, bpf := false)
  }

  // ---- The whole system ----

  /** The loop waits for a message, builds the control plane that call `client` asked for, or is over. */
  datatype Phase = Live | Loading(client: nat) | Exited | Crashed

  /** One call of config.Run: before TryLock, compiling its config, blocked on sending it, waiting for
      the reply (`before` is the loop's config when it was received), and storing the outcome. */
  datatype Client =
    | Asking
    | Building
    | Sending(conf: Conf)
    | Waiting(conf: Conf, before: Conf)
    | Recording(conf: Conf, before: Conf, failed: bool)
    | Done

  /** `first` is the plane that the first goroutine serves, None while it has not yet read `c`.
      `exits` counts the `_errorExit` calls still blocked on their send, `asked` all of them, and
      `absorbed` those that the loop took for the end of an old plane. */
  datatype State = State(phase: Phase, loop: Loop, planes: seq<Plane>, first: Option<nat>,
                         clients: seq<Client>, lock: Option<nat>, exits: nat, asked: nat, absorbed: nat)

  datatype Event =
    | Boot
    | Return(plane: nat, listenOk: bool)
    | TakeStop(plane: nat)
    | TakeExit
    | TakeReload(client: nat)
    | Swap(loadOk: bool, rollbackOk: bool)
    | Ask
    | TryLock(client: nat)
    | Send(client: nat, conf: Conf)
    | Abort(client: nat)
    | Unlock(client: nat)
    | AskExit

  /** The loop has neither exited nor crashed. */
  predicate Up(s: State)
  {
    s.phase.Live? || s.phase.Loading?
  }

  /** The call whose config is being loaded. */
  predicate Loads(s: State, i: nat)
  {
    s.phase == Loading(i) && i < |s.clients| && s.clients[i].Waiting?
  }

  ghost predicate Init(s: State)
  {
    && s.phase == Live && s.first == None
    && |s.planes| == 1
    && s.planes[0] == Plane(s.loop.conf, false, true, None, Unserved)
    && s.loop == Loop(0, s.loop.conf, false, false, None, false)
    && s.clients == [] && s.lock == None && s.exits == s.asked == s.absorbed == 0
  }

  predicate Enabled(s: State, e: Event)
  {
    match e
    case Boot => Up(s) && s.first == None && s.loop.plane < |s.planes|
    case Return(p, _) => p < |s.planes| && s.planes[p].server == Serving
    case TakeStop(p) => s.phase == Live && p < |s.planes| && s.planes[p].server == Stopped
    case TakeExit => s.phase == Live && s.exits > 0
    case TakeReload(i) => s.phase == Live && i < |s.clients| && s.clients[i].Sending?
    case Swap(loadOk, _) =>
      s.phase.Loading? && Loads(s, s.phase.client) && (loadOk ==> s.clients[s.phase.client].conf.subscriptions == [])
    case Ask => true
    case TryLock(i) => i < |s.clients| && s.clients[i].Asking?
    case Send(i, _) => i < |s.clients| && s.clients[i].Building?
    case Abort(i) => i < |s.clients| && s.clients[i].Building?
    case Unlock(i) => i < |s.clients| && s.clients[i].Recording?
    case AskExit => true
  }

  function Exit(s: State): State
  {
    s.(phase := Exited,
       planes := if s.loop.plane < |s.planes|
                 then s.planes[s.loop.plane := s.planes[s.loop.plane].(closed := true)] else s.planes)
  }

  function SetServer(planes: seq<Plane>, p: nat, v: Server): seq<Plane>
  {
    if p < |planes| then planes[p := planes[p].(server := v)] else planes
  }

  /** `chCallback <- errReload`, received by the call that waits on it. */
  function Reply(clients: seq<Client>, callback: Option<nat>, failed: bool): seq<Client>
  {
    match callback
    case Some(i) =>
      if i < |clients| && clients[i].Waiting?
      then clients[i := Recording(clients[i].conf, clients[i].before, failed)] else clients
    case None => clients
  }

  /** `case nil` of the loop. */
  function OnNil(s: State): State
  {
    if s.loop.reloading && s.loop.listening then
      s.(loop := s.loop.(reloading := false),
         planes := SetServer(s.planes, s.loop.plane, Serving),
         clients := Reply(s.clients, s.loop.callback, s.loop.errReload))
    else Exit(s)
  }

  function SetPlane(planes: seq<Plane>, p: nat, v: Plane): seq<Plane>
  {
    if p < |planes| then planes[p := v] else planes
  }

  /** `default` of the loop, up to the call of newControlPlane: the BPF object is taken out of `c`. */
  function OnReload(s: State, i: nat): State
    requires i < |s.clients| && s.clients[i].Sending?
  {
    var c := s.loop.plane;
    s.(phase := Loading(i),
       planes := if c < |s.planes| then SetPlane(s.planes, c, s.planes[c].(bpf := false)) else s.planes,
       clients := s.clients[i := Waiting(s.clients[i].conf, s.loop.conf)])
  }

  /** The rest of it: `c` and `conf` are replaced and the old plane is closed; or nothing could be loaded. */
  function OnLoaded(s: State, i: nat, loadOk: bool, rollbackOk: bool): State
    requires Loads(s, i)
  {
    if !loadOk && !rollbackOk then s.(phase := Crashed)
    else
      var (c, conf) := (s.loop.plane, s.clients[i].conf);
      s.(phase := Live,
         loop := AfterReload(s.loop, |s.planes|, conf, i, loadOk),
         planes := (if c < |s.planes| then SetPlane(s.planes, c, Retired(s.planes[c])) else s.planes)
                   + [BuiltPlane(s.loop, conf, loadOk)])
  }

  function Apply(s: State, e: Event): State
    requires Enabled(s, e)
  {
    match e
    case Boot => s.(first := Some(s.loop.plane), planes := SetServer(s.planes, s.loop.plane, Serving))
    case Return(p, listenOk) =>
      // Only ListenAndServe, which the first goroutine calls, assigns `listener`.
      s.(planes := SetServer(s.planes, p, Stopped),
         loop := if s.first == Some(p) then s.loop.(listening := listenOk) else s.loop)
    case TakeStop(p) => OnNil(s.(planes := SetServer(s.planes, p, Gone)))
    case TakeExit =>
      OnNil(s.(exits := s.exits - 1,
               absorbed := if s.loop.reloading && s.loop.listening then s.absorbed + 1 else s.absorbed))
    case TakeReload(i) => OnReload(s, i)
    case Swap(loadOk, rollbackOk) => OnLoaded(s, s.phase.client, loadOk, rollbackOk)
    case Ask => s.(clients := s.clients + [Asking])
    case TryLock(i) =>
      if s.lock == None then s.(lock := Some(i), clients := s.clients[i := Building])
      else s.(clients := s.clients[i := Done])
    case Send(i, conf) => s.(clients := s.clients[i := Sending(conf)])
    case Abort(i) => s.(lock := None, clients := s.clients[i := Done])
    case Unlock(i) => s.(lock := None, clients := s.clients[i := Done])
    case AskExit => s.(exits := s.exits + 1, asked := s.asked + 1)
  }

  ghost predicate Step(s: State, e: Event, s': State)
  {
    Enabled(s, e) && s' == Apply(s, e)
  }

  ghost predicate Run(ss: seq<State>, es: seq<Event>)
  {
    && |ss| == |es| + 1 && Init(ss[0])
    && forall k :: 0 <= k < |es| ==> Step(ss[k], es[k], ss[k + 1])
  }

  // ---- Planes: holds at every loop head of every run ----

  ghost predicate PlaneGood(planes: seq<Plane>, p: nat)
    requires p < |planes|
  {
    match planes[p].cacheFrom
    case Some(q) => q < p && planes[q].conf.prefer == planes[p].conf.prefer
    case None => true
  }

  /** A DNS cache comes only from an earlier plane with the same IpVersionPrefer. */
  ghost predicate CachesGood(s: State)
  {
    forall p :: 0 <= p < |s.planes| ==> PlaneGood(s.planes, p)
  }

  /** The current plane is the newest, alone open, and was built from the loop's config; at the loop head
      it alone owns the BPF object, which nobody does while a new plane is being built. */
  ghost predicate CurrentGood(s: State)
  {
    && s.loop.plane == |s.planes| - 1
    && (forall p :: 0 <= p < |s.planes| - 1 ==> s.planes[p].closed && !s.planes[p].bpf)
    && (Up(s) ==> var c := s.planes[s.loop.plane]; !c.closed && c.conf == s.loop.conf && c.bpf == s.phase.Live?)
  }

  ghost predicate PlanesInv(s: State)
  {
    CachesGood(s) && CurrentGood(s)
  }

  lemma CachesGoodStep(s: State, e: Event, s': State)
    requires PlanesInv(s) && Step(s, e, s')
    ensures CachesGood(s')
  {
    forall p | 0 <= p < |s'.planes| ensures PlaneGood(s'.planes, p) {
      if p < |s.planes| {
        assert PlaneGood(s.planes, p);
        assert forall q :: 0 <= q < |s.planes| ==>
            s'.planes[q].conf == s.planes[q].conf && s'.planes[q].cacheFrom == s.planes[q].cacheFrom;
      }
    }
  }

  lemma CurrentGoodStep(s: State, e: Event, s': State)
    requires CurrentGood(s) && Step(s, e, s')
    ensures CurrentGood(s')
  {
  }

  lemma PlanesInvStep(s: State, e: Event, s': State)
    requires PlanesInv(s) && Step(s, e, s')
    ensures PlanesInv(s')
  {
    CachesGoodStep(s, e, s');
    CurrentGoodStep(s, e, s');
  }

  // ---- Clients: the lock and the callback, in every run ----

  predicate Critical(c: Client)
  {
    c.Building? || c.Sending? || c.Waiting? || c.Recording?
  }

  /** The call that a reply is owed to, while the loop is up. */
  function Owed(s: State): Option<nat>
  {
    if s.phase.Loading? then Some(s.phase.client) else if s.loop.reloading then s.loop.callback else None
  }

  /** Only the lock holder is between TryLock and Unlock. */
  ghost predicate LockInv(s: State)
  {
    && (s.lock.Some? ==> s.lock.value < |s.clients|)
    && (forall i :: 0 <= i < |s.clients| ==> (Critical(s.clients[i]) <==> s.lock == Some(i)))
  }

  /** A reply is owed exactly to the waiting call; the config it will find running is the one it asked
      for, or the previous one if the load failed. */
  ghost predicate RepliesInv(s: State)
  {
    && (Up(s) ==> forall i :: 0 <= i < |s.clients| ==> (s.clients[i].Waiting? <==> Owed(s) == Some(i)))
    && (s.phase.Loading? ==> LoadOwed(s))
    && (s.phase == Live && s.loop.reloading ==> ReplyOwed(s))
  }

  ghost predicate ClientsInv(s: State)
  {
    LockInv(s) && RepliesInv(s)
  }

  ghost predicate LoadOwed(s: State)
  {
    !s.loop.reloading && s.phase.Loading? && Loads(s, s.phase.client) && s.clients[s.phase.client].before == s.loop.conf
  }

  ghost predicate ReplyOwed(s: State)
  {
    && s.loop.callback.Some? && s.loop.callback.value < |s.clients|
    && var c := s.clients[s.loop.callback.value];
    && c.Waiting?
    && s.loop.conf == if s.loop.errReload then c.before else c.conf
  }

  lemma LockInvStep(s: State, e: Event, s': State)
    requires LockInv(s) && Step(s, e, s')
    ensures LockInv(s')
  {
  }

  /** Only the lock holder sends, so no message arrives while another is being answered. */
  lemma NoNestedReload(s: State, e: Event)
    requires ClientsInv(s) && Enabled(s, e) && e.TakeReload?
    ensures !s.loop.reloading
  {
  }

  lemma RepliesInvStep(s: State, e: Event, s': State)
    requires ClientsInv(s) && Step(s, e, s')
    ensures RepliesInv(s')
  {
    if e.TakeReload? { NoNestedReload(s, e); }
  }

  lemma ClientsInvStep(s: State, e: Event, s': State)
    requires ClientsInv(s) && Step(s, e, s')
    ensures ClientsInv(s')
  {
    LockInvStep(s, e, s');
    RepliesInvStep(s, e, s');
  }
}

/** The event loop of dae/run.go in its own form: fields updated in place, config objects on the
    heap, and one BPF object handed from plane to plane. */
module Daemon {
  import opened Wrappers
  import opened ReloadProtocol
  import opened Sequences

  class DaeConfig {
    var prefer: int
    var subscriptions: seq<string>
    var wan: seq<string>
    var body: int

    ghost function Value(): Conf
      reads this
    {
      Conf(prefer, subscriptions, wan, body)
    }

    constructor (prefer: int, subscriptions: seq<string>, wan: seq<string>, body: int)
      ensures Value() == Conf(prefer, subscriptions, wan, body)
    {
      this.prefer, this.subscriptions, this.wan, this.body := prefer, subscriptions, wan, body;
    }
  }

  class Bpf {
    var closed: bool

    constructor ()
      ensures !closed
    {
      closed := false;
    }
  }

  /** A running control plane: `built` is the config it stands for, `wan` the interfaces it was given. */
  class ControlPlane {
    const number: nat
    ghost const built: Conf
    const wan: seq<string>
    const cacheFrom: Option<nat>
    var bpf: Bpf?
    var closed: bool

    constructor (number: nat, ghost built: Conf, conf: DaeConfig, cacheFrom: Option<nat>)
      ensures this.number == number && this.built == built && wan == conf.wan && this.cacheFrom == cacheFrom
      ensures bpf == null && !closed
    {
      this.number := number;
      this.built := built;
      this.wan := conf.wan;
      this.cacheFrom := cacheFrom;
      this.bpf := null;
      this.closed := false;
    }
  }

  // ---- preprocessWanInterfaceAuto of dae/utils.go ----

  function Expand(wan: seq<string>, defaults: seq<string>): seq<string>
  {
    if wan == [] then []
    else
      var n := |wan| - 1;
      Expand(wan[..n], defaults) + if wan[n] == "auto" then defaults else [wan[n]]
  }

  ghost predicate Expands(wan: seq<string>, found: seq<string>, out: seq<string>)
  {
    forall x :: x in out <==> (x in wan && x != "auto") || ("auto" in wan && x in found)
  }

  lemma {:induction false} ExpandMeans(wan: seq<string>, found: seq<string>)
    ensures Expands(wan, found, Expand(wan, found))
  {
    if wan != [] {
      var n := |wan| - 1;
      ExpandMeans(wan[..n], found);
      assert wan == wan[..n] + [wan[n]];
    }
  }

  /** And in order: one interface more is expanded behind the others. */
  lemma ExpandInPlace(wan: seq<string>, x: string, found: seq<string>)
    ensures Expand([], found) == []
    ensures Expand(wan + [x], found) == Expand(wan, found) + if x == "auto" then found else [x]
  {
    assert (wan + [x])[..|wan|] == wan;
  }

  /** `defaults` is the outcome of looking up the default interfaces, which may fail. */
  method PreprocessWanInterfaceAuto(params: DaeConfig, defaults: Option<seq<string>>) returns (ok: bool)
    modifies params`wan
    ensures ok <==> ("auto" in old(params.wan) ==> defaults.Some?)
    ensures ok ==> params.wan == Deduplicate(Expand(old(params.wan), if defaults.Some? then defaults.value else []))
    ensures ok ==> Distinct(params.wan)
    ensures ok ==> Expands(old(params.wan), if defaults.Some? then defaults.value else [], params.wan)
  {
    var ifs: seq<string> := [];
    var wan := params.wan;
    ghost var found := if defaults.Some? then defaults.value else [];
    for i := 0 to |wan|
      invariant params.wan == wan && ifs == Expand(wan[..i], found)
      invariant "auto" in wan[..i] ==> defaults.Some?
    {
      assert wan[..i + 1][..i] == wan[..i];
      if wan[i] == "auto" {
        if defaults.None? {
          return false;
        }
        ifs := ifs + defaults.value;
      } else {
        ifs := ifs + [wan[i]];
      }
    }
    assert wan[..|wan|] == wan;
    ExpandMeans(wan, found);
    params.wan := Deduplicate(ifs);
    return true;
  }

  /** Whether a config can be built: `loads` is the outcome of control.NewControlPlane. */
  predicate Loadable(conf: Conf, loads: bool, defaults: Option<seq<string>>)
  {
    loads && conf.subscriptions == [] && ("auto" in conf.wan ==> defaults.Some?)
  }

  /** `newControlPlane`: it works on a deep copy, so it modifies nothing that existed before. */
  method NewControlPlane(number: nat, conf: DaeConfig, cacheFrom: Option<nat>, loads: bool,
                         defaults: Option<seq<string>>)
    returns (c: ControlPlane?)
    ensures c != null <==> Loadable(conf.Value(), loads, defaults)
    ensures c == null <==> !loads || conf.subscriptions != [] || ("auto" in conf.wan && defaults.None?)
    ensures c != null ==> fresh(c) && c.number == number && c.built == conf.Value() && c.cacheFrom == cacheFrom
    ensures c != null ==> Expands(conf.wan, if defaults.Some? then defaults.value else [], c.wan)
    ensures c != null ==> c.bpf == null && !c.closed
  {
    var copy := new DaeConfig(conf.prefer, conf.subscriptions, conf.wan, conf.body);
    if |copy.subscriptions| > 0 {
      return null;
    }
    var ok := PreprocessWanInterfaceAuto(copy, defaults);
    if !ok || !loads {
      return null;
    }
    c := new ControlPlane(number, conf.Value(), copy, cacheFrom);
  }

  /** A plane of the new config, or of the old one again if that does not load. */
  method Load(number: nat, newConf: DaeConfig, oldConf: DaeConfig, cacheFrom: Option<nat>, newLoads: bool,
              oldLoads: bool, defaults: Option<seq<string>>) returns (c: ControlPlane?, loaded: bool)
    ensures loaded <==> Loadable(newConf.Value(), newLoads, defaults)
    ensures c == null <==> !loaded && !Loadable(oldConf.Value(), oldLoads, defaults)
    ensures c != null ==> fresh(c) && c.number == number && c.cacheFrom == cacheFrom && c.bpf == null && !c.closed
    ensures c != null ==> c.built == (if loaded then newConf else oldConf).Value()
  {
    c := NewControlPlane(number, newConf, cacheFrom, newLoads, defaults);
    loaded := c != null;
    if c == null {
      c := NewControlPlane(number, oldConf, cacheFrom, oldLoads, defaults);
    }
  }

  /** `dae.Run` between two messages. `fatal` records that it ended in Fatalln. */
  class Loop {
    var c: ControlPlane
    var conf: DaeConfig
    var reloading: bool
    var errReload: bool
    var callback: Option<nat>
    var listening: bool
    var fatal: bool

    /** At the loop head: the plane is open, owns the BPF object, and was built from `conf`. */
    ghost predicate Valid()
      reads this, c, conf
    {
      !fatal && !c.closed && c.bpf != null && c.built == conf.Value()
    }

    ghost function View(): ReloadProtocol.Loop
      reads this, conf
    {
      ReloadProtocol.Loop(c.number, conf.Value(), reloading, errReload, callback, listening)
    }

    constructor (first: ControlPlane, conf: DaeConfig)
      ensures c == first && this.conf == conf && callback == None
      ensures !reloading && !errReload && !listening && !fatal
    {
      this.c, this.conf, this.callback := first, conf, None;
      this.reloading, this.errReload, this.listening, this.fatal := false, false, false, false;
    }

    /** The start of `dae.Run`: the first plane loads its own BPF object. */
    static method Start(conf: DaeConfig, loads: bool, defaults: Option<seq<string>>) returns (l: Loop?)
      ensures l != null <==> Loadable(conf.Value(), loads, defaults)
      ensures l != null ==> fresh(l) && l.Valid()
      ensures l != null ==> l.View() == ReloadProtocol.Loop(0, conf.Value(), false, false, None, false)
      ensures l != null ==> l.c.cacheFrom == None && fresh(l.c) && fresh(l.c.bpf)
    {
      var first := NewControlPlane(0, conf, None, loads, defaults);
      if first == null {
        return null;
      }
      first.bpf := new Bpf();
      l := new Loop(first, conf);
    }

    /** A reload message, received and loaded without a step of others in between. `newLoads` and `oldLoads`
        are the outcomes of building the new plane and, after a failure, the old one again. */
    method OnReload(newConf: DaeConfig, reply: nat, newLoads: bool, oldLoads: bool, defaults: Option<seq<string>>)
      requires Valid()
      modifies this, c, c.bpf
      ensures var loadOk := Loadable(old(newConf.Value()), newLoads, defaults);
              fatal == (!loadOk && !Loadable(old(conf.Value()), oldLoads, defaults))
      ensures !fatal ==>
                var loadOk := Loadable(old(newConf.Value()), newLoads, defaults);
                && Valid() && fresh(c)
                && View() == AfterReload(old(View()), old(c.number) + 1, old(newConf.Value()), reply, loadOk)
                && c.number == old(c.number) + 1 && conf == (if loadOk then newConf else old(conf))
                && c.built == old((if loadOk then newConf else conf).Value())
                && c.cacheFrom == (if old(conf.prefer) == old(newConf.prefer) then Some(old(c.number)) else None)
                && reloading && errReload == !loadOk && callback == Some(reply) && listening == old(listening)
                && c.bpf == old(c.bpf) && c.bpf.closed == old(c.bpf.closed)
      ensures old(c).closed && old(c).bpf == null
    {
      var obj := c.bpf;  // EjectBpf
      c.bpf := null;
      var cacheFrom := if conf.prefer == newConf.prefer then Some(c.number) else None;
      var newC, loaded := Load(c.number + 1, newConf, conf, cacheFrom, newLoads, oldLoads, defaults);
      errReload := !loaded;
      if newC == null {
        obj.closed := true;
        c.closed := true;
        fatal := true;
        return;
      }
      newC.bpf := obj;  // InjectBpf
      var oldC := c;
      c := newC;
      conf := if loaded then newConf else conf;
      reloading := true;
      callback := Some(reply);
      oldC.closed := true;
    }

    /** A nil message: either the end of the old plane, then the new one is served and the reply
        sent; or the end of the loop. */
    method OnNil() returns (served: bool, answer: Option<(nat, bool)>)
      requires Valid() && (reloading ==> callback.Some?)
      modifies this, c
      ensures served <==> old(reloading && listening)
      ensures c == old(c) && conf == old(conf) && c.bpf == old(c.bpf)
      ensures served ==> Valid() && View() == old(View()).(reloading := false)
      ensures served ==> answer == Some((old(callback).value, old(errReload)))
      ensures !served ==> answer == None && c.closed && View() == old(View())
    {
      if reloading && listening {
        reloading := false;
        return true, Some((callback.value, errReload));
      }
      c.closed := true;
      return false, None;
    }
  }
}

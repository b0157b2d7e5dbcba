// useLiveQuote.ts on top of liveQuoteManager.ts: the calls that mounted components make of the manager.
module LiveQuoteClients {
  import opened Options
  import opened Text
  import Hook = LiveQuoteHook
  import Protocol = LiveQuoteProtocol
  import Theorems = LiveQuoteTheorems

  // What happens, in order: something in a component (with what connect() meets, if it calls subscribe),
  // or something between manager and browser.
  datatype Joint = Client(e: Hook.Event, outcome: Protocol.Outcome) | Transport(t: Protocol.Event)

  // The manager is called by components only.
  predicate Proper(js: seq<Joint>) {
    forall k :: 0 <= k < |js| ==> js[k].Transport? ==> !js[k].t.SubscribeEvent? && !js[k].t.UnsubscribeEvent?
  }

  // A mounted component's effect: its symbol, and the listener it made, named by the moment of the mount.
  datatype Effect = Effect(sym: string, listener: nat)

  // The mounted components after js.
  function EffectsAfter(js: seq<Joint>): map<nat, Effect> {
    if js == [] then map[]
    else
      var n := |js| - 1;
      var before := EffectsAfter(js[..n]);
      match js[n]
      case Client(Mount(i, sym), _) => before[i := Effect(sym, n)]
      case Client(Cleanup(i), _) => before - {i}
      case _ => before
  }

  function HookEvents(js: seq<Joint>): seq<Hook.Event> {
    if js == [] then []
    else HookEvents(js[..|js| - 1]) + if js[|js| - 1].Client? then [js[|js| - 1].e] else []
  }

  // The effect subscribes with its symbol and listener, the cleanup unsubscribes with the same two.
  function CallsOf(effects: map<nat, Effect>, n: nat, j: Joint): seq<Protocol.Event> {
    match j
    case Client(Mount(_, sym), o) => [Protocol.SubscribeEvent(sym, n, o)]
    case Client(Cleanup(i), _) => if i in effects then [Protocol.UnsubscribeEvent(effects[i].sym, effects[i].listener)] else []
    case Client(_, _) => []
    case Transport(t) => [t]
  }

  function ManagerEvents(js: seq<Joint>): seq<Protocol.Event> {
    if js == [] then []
    else
      var n := |js| - 1;
      ManagerEvents(js[..n]) + CallsOf(EffectsAfter(js[..n]), n, js[n])
  }

  // The effects are those of the components that watch a symbol; their listeners differ and are from
  // before n; and the manager's mounts are exactly they.
  ghost predicate Linked(w: Hook.World, effects: map<nat, Effect>, mounts: map<nat, string>, n: nat) {
    && (forall i: nat :: i in effects <==> i < |w.hooks| && w.hooks[i].sym.Some?)
    && (forall i: nat :: i in effects ==> w.hooks[i].sym.value == effects[i].sym && effects[i].listener < n)
    && (forall i: nat, k: nat :: i in effects && k in effects && effects[i].listener == effects[k].listener ==> i == k)
    && (forall i: nat :: i in effects ==> effects[i].listener in mounts && mounts[effects[i].listener] == Normalise(effects[i].sym))
    && (forall l: nat :: l in mounts ==> exists i: nat :: i in effects && effects[i].listener == l)
  }

  lemma PairedOne(es: seq<Protocol.Event>, e: Protocol.Event)
    requires Theorems.Paired(es) && Theorems.PairedCall(Theorems.MountsAfter(es), e)
    ensures Theorems.Paired(es + [e])
    ensures Theorems.MountsAfter(es + [e]) == Theorems.MountsStep(Theorems.MountsAfter(es), e)
  {
    hide Theorems.PairedCall, Theorems.MountsStep;
    var all := es + [e];
    assert all[..|es|] == es;
    forall i | 0 <= i < |all|
      ensures Theorems.PairedCall(Theorems.MountsAfter(all[..i]), all[i])
    {
      if i < |es| {
        assert all[..i] == es[..i];
      }
    }
  }

  // One happening keeps the link, and its call of the manager, if any, is a paired one.
  lemma LinkStep(w: Hook.World, effects: map<nat, Effect>, mounts: map<nat, string>, n: nat, j: Joint)
    requires Linked(w, effects, mounts, n) && Proper([j]) && (j.Client? ==> Hook.Enabled(w, j.e))
    ensures var w' := if j.Client? then Hook.Next(w, j.e) else w;
            var effects' := match j
                            case Client(Mount(i, sym), _) => effects[i := Effect(sym, n)]
                            case Client(Cleanup(i), _) => effects - {i}
                            case _ => effects;
            var calls := CallsOf(effects, n, j);
            if calls == [] then Linked(w', effects', mounts, n + 1)
            else |calls| == 1 && Theorems.PairedCall(mounts, calls[0]) &&
                 Linked(w', effects', Theorems.MountsStep(mounts, calls[0]), n + 1)
  {
    hide Normalise;
    match j
    case Transport(t) => assert [j][0] == j;
    case Client(Mount(i, sym), o) =>
      assert n !in mounts;
      MountLinks(w, effects, mounts, n, i, sym);
    case Client(Cleanup(i), _) =>
      assert i in effects;
      CleanupLinks(w, effects, mounts, n, i);
    case Client(e, _) =>
  }

  lemma MountLinks(w: Hook.World, effects: map<nat, Effect>, mounts: map<nat, string>, n: nat, i: nat, sym: string)
    requires Linked(w, effects, mounts, n) && Hook.Enabled(w, Hook.Mount(i, sym))
    ensures Linked(Hook.Next(w, Hook.Mount(i, sym)), effects[i := Effect(sym, n)], mounts[n := Normalise(sym)], n + 1)
  {
    hide Normalise;
    var effects', mounts' := effects[i := Effect(sym, n)], mounts[n := Normalise(sym)];
    assert i !in effects;
    forall l: nat | l in mounts'
      ensures exists k: nat :: k in effects' && effects'[k].listener == l
    {
      if l == n {
        assert effects'[i].listener == n;
      } else {
        var k: nat :| k in effects && effects[k].listener == l;
        assert effects'[k].listener == l;
      }
    }
  }

  lemma CleanupLinks(w: Hook.World, effects: map<nat, Effect>, mounts: map<nat, string>, n: nat, i: nat)
    requires Linked(w, effects, mounts, n) && Hook.Enabled(w, Hook.Cleanup(i)) && i in effects
    ensures Linked(Hook.Next(w, Hook.Cleanup(i)), effects - {i}, mounts - {effects[i].listener}, n + 1)
  {
    hide Normalise;
    var effects', mounts' := effects - {i}, mounts - {effects[i].listener};
    forall l: nat | l in mounts'
      ensures exists k: nat :: k in effects' && effects'[k].listener == l
    {
      var k: nat :| k in effects && effects[k].listener == l;
      assert k in effects' && effects'[k].listener == l;
    }
  }

  lemma {:induction false} JointLinked(start: Hook.World, js: seq<Joint>)
    requires Proper(js) && Hook.Play(start, HookEvents(js)).Some?
    requires forall i :: 0 <= i < |start.hooks| ==> start.hooks[i].sym.None?
    ensures Theorems.Paired(ManagerEvents(js))
    ensures Linked(Hook.Play(start, HookEvents(js)).value, EffectsAfter(js), Theorems.MountsAfter(ManagerEvents(js)), |js|)
  {
    if js != [] {
      var n := |js| - 1;
      var front, j := js[..n], js[n];
      PlayedBefore(start, js);
      JointLinked(start, front);
      assert Proper([j]);
      var w := Hook.Play(start, HookEvents(front)).value;
      LinkStep(w, EffectsAfter(front), Theorems.MountsAfter(ManagerEvents(front)), n, j);
      hide Hook.Play, Hook.Enabled, Hook.Next, Linked, Theorems.MountsStep, Theorems.PairedCall, Theorems.Paired;
      var calls := CallsOf(EffectsAfter(front), n, j);
      assert ManagerEvents(js) == ManagerEvents(front) + calls;
      if calls == [] {
        assert ManagerEvents(js) == ManagerEvents(front);
      } else {
        PairedOne(ManagerEvents(front), calls[0]);
        assert calls == [calls[0]];
      }
    }
  }

  lemma PlayedBefore(start: Hook.World, js: seq<Joint>)
    requires js != [] && Hook.Play(start, HookEvents(js)).Some?
    ensures var front, j := js[..|js| - 1], js[|js| - 1];
            Hook.Play(start, HookEvents(front)).Some? &&
            var w := Hook.Play(start, HookEvents(front)).value;
            if j.Client? then Hook.Enabled(w, j.e) && Hook.Play(start, HookEvents(js)).value == Hook.Next(w, j.e)
            else Hook.Play(start, HookEvents(js)).value == w
  {
    hide Hook.Enabled, Hook.Next;
    var front, j := js[..|js| - 1], js[|js| - 1];
    if j.Client? {
      assert HookEvents(js)[..|HookEvents(js)| - 1] == HookEvents(front);
    } else {
      assert HookEvents(js) == HookEvents(front);
    }
  }

  // The components that watch a symbol, by normal form.
  function Watching(effects: map<nat, Effect>, sym: string): set<nat> {
    set i | i in effects && Normalise(effects[i].sym) == sym
  }

  function ListenersOf(effects: map<nat, Effect>, hooks: set<nat>): set<nat>
    requires hooks <= effects.Keys
  {
    set i | i in hooks :: effects[i].listener
  }

  lemma {:induction false} AsManyListeners(effects: map<nat, Effect>, hooks: set<nat>)
    requires hooks <= effects.Keys
    requires forall i: nat, k: nat :: i in effects && k in effects && effects[i].listener == effects[k].listener ==> i == k
    ensures |ListenersOf(effects, hooks)| == |hooks|
  {
    if hooks != {} {
      var i :| i in hooks;
      AsManyListeners(effects, hooks - {i});
      assert ListenersOf(effects, hooks) == ListenersOf(effects, hooks - {i}) + {effects[i].listener};
    }
  }

  // Whatever the components of useLiveQuote do, and whatever happens in between, their calls of the
  // manager are paired: every mount brings a fresh listener, unsubscribed at most once, for its symbol.
  lemma HooksPairTheirCalls(worlds: seq<Hook.World>, js: seq<Joint>)
    requires Proper(js) && Hook.Run(worlds, HookEvents(js))
    ensures Theorems.Paired(ManagerEvents(js))
    ensures Linked(worlds[|HookEvents(js)|], EffectsAfter(js), Theorems.MountsAfter(ManagerEvents(js)), |js|)
  {
    var es := HookEvents(js);
    Hook.RunPlays(worlds, es, |es|);
    assert es[..|es|] == es;
    forall i | 0 <= i < |worlds[0].hooks|
      ensures worlds[0].hooks[i].sym.None?
    {
      assert worlds[0].hooks[i] == Hook.Idle([]);
    }
    JointLinked(worlds[0], js);
  }

  // So in every joint run the manager's count for a symbol is the number of components that watch it,
  // and a tick for it is handed to their listeners, each once, and to no other.
  lemma TicksReachTheWatching(worlds: seq<Hook.World>, ss: seq<Protocol.State>, js: seq<Joint>, symbol: string)
    requires Proper(js) && Hook.Run(worlds, HookEvents(js)) && Protocol.Run(ManagerEvents(js), ss)
    ensures var effects, last := EffectsAfter(js), ss[|ManagerEvents(js)|];
            var watching := Watching(effects, Normalise(symbol));
            && Theorems.TickReceivers(last, symbol) == ListenersOf(effects, watching)
            && Protocol.CountOf(last, Normalise(symbol)) == |watching|
    ensures forall i: nat :: i in EffectsAfter(js) <==>
              i < |worlds[|HookEvents(js)|].hooks| && worlds[|HookEvents(js)|].hooks[i].sym == Some(EffectSymbol(EffectsAfter(js), i))
  {
    hide Normalise, Protocol.Run, Theorems.Paired, Theorems.TickReceivers, Hook.Run, Protocol.CountOf;
    HooksPairTheirCalls(worlds, js);
    var es, effects := ManagerEvents(js), EffectsAfter(js);
    var mounts := Theorems.MountsAfter(es);
    ReceiversOfRun(es, ss, symbol);
    var watching := Watching(effects, Normalise(symbol));
    assert Theorems.MountedAt(mounts, Normalise(symbol)) == ListenersOf(effects, watching);
    AsManyListeners(effects, watching);
  }

  function EffectSymbol(effects: map<nat, Effect>, i: nat): string {
    if i in effects then effects[i].sym else ""
  }

  lemma ReceiversOfRun(es: seq<Protocol.Event>, ss: seq<Protocol.State>, symbol: string)
    requires Protocol.Run(es, ss) && Theorems.Paired(es)
    ensures |es| < |ss|
    ensures var mounted := Theorems.MountedAt(Theorems.MountsAfter(es), Normalise(symbol));
            Theorems.TickReceivers(ss[|es|], symbol) == mounted && Protocol.CountOf(ss[|es|], Normalise(symbol)) == |mounted|
  {
    Theorems.PairedClientsAreCounted(es, ss, |es|, symbol);
    assert es[..|es|] == es;
  }
}

// useLiveQuote.ts: the components that watch symbols, their fallback and poll timers and REST requests,
// and the per-symbol snapshots they share.
module LiveQuoteHook {
  import opened Options

  datatype Snapshot = Snapshot(ltp: Option<real>, changePct: Option<real>, ts: Option<real>, isLive: bool)

  datatype Tick = Tick(ltp: real, changePct: Option<real>, ts: real)

  datatype Quote = Quote(ltp: Option<real>, changePct: Option<real>, live: bool)

  // A component: the symbol its effect watches (None between cleanup and the next effect), the three
  // refs, and the symbols of the REST requests it has out.
  datatype Hook = Hook(sym: Option<string>, ticked: bool, fallback: bool, poll: bool, inflight: seq<string>)

  datatype World = World(stores: map<string, Snapshot>, hooks: seq<Hook>)

  // Hear: the manager calls the listener.  Settle: request k ends, with a quote unless it failed.
  datatype Event =
    | Mount(hook: nat, sym: string)
    | Cleanup(hook: nat)
    | Hear(hook: nat, tick: Tick)
    | FallbackFires(hook: nat)
    | PollFires(hook: nat)
    | Settle(hook: nat, k: nat, result: Option<Quote>, now: real)

  function Idle(inflight: seq<string>): Hook {
    Hook(None, false, false, false, inflight)
  }

  function FromTick(tick: Tick): Snapshot {
    Snapshot(Some(tick.ltp), tick.changePct, Some(tick.ts), true)
  }

  function FromQuote(quote: Quote, now: real): Snapshot {
    Snapshot(quote.ltp, quote.changePct, Some(now), quote.live)
  }

  predicate HookEnabled(h: Hook, e: Event) {
    match e
    case Mount(_, _) => h.sym.None?
    case Cleanup(_) => h.sym.Some?
    case Hear(_, _) => h.sym.Some?
    case FallbackFires(_) => h.sym.Some? && h.fallback
    case PollFires(_) => h.sym.Some? && h.poll
    case Settle(_, k, _, _) => k < |h.inflight|
  }

  predicate Enabled(w: World, e: Event) {
    e.hook < |w.hooks| && HookEnabled(w.hooks[e.hook], e)
  }

  function NextHook(h: Hook, e: Event): Hook
    requires HookEnabled(h, e)
  {
    match e
    case Mount(_, sym) => Hook(Some(sym), false, true, h.poll, h.inflight)
    case Cleanup(_) => Idle(h.inflight)
    case Hear(_, _) => if h.ticked then h else h.(ticked := true, fallback := false, poll := false)
    case FallbackFires(_) =>
      if h.ticked then h.(fallback := false)
      else h.(fallback := false, poll := true, inflight := h.inflight + [h.sym.value])
    case PollFires(_) => if h.ticked then h.(poll := false) else h.(inflight := h.inflight + [h.sym.value])
    case Settle(_, k, _, _) => h.(inflight := h.inflight[..k] + h.inflight[k + 1..])
  }

  function NextStores(stores: map<string, Snapshot>, h: Hook, e: Event): map<string, Snapshot>
    requires HookEnabled(h, e)
  {
    match e
    case Hear(_, tick) => stores[h.sym.value := FromTick(tick)]
    case Settle(_, k, Some(quote), now) => if h.ticked then stores else stores[h.inflight[k] := FromQuote(quote, now)]
    case _ => stores
  }

  function Next(w: World, e: Event): World
    requires Enabled(w, e)
  {
    var h := w.hooks[e.hook];
    World(NextStores(w.stores, h, e), w.hooks[e.hook := NextHook(h, e)])
  }

  ghost predicate Run(worlds: seq<World>, events: seq<Event>) {
    && |worlds| == |events| + 1
    && worlds[0].stores == map[]
    && (forall i :: 0 <= i < |worlds[0].hooks| ==> worlds[0].hooks[i] == Idle([]))
    && forall k :: 0 <= k < |events| ==> Enabled(worlds[k], events[k]) && worlds[k + 1] == Next(worlds[k], events[k])
  }

  // ---------------------------------------------------------------------------
  // Timers
  // ---------------------------------------------------------------------------

  predicate HookInv(h: Hook) {
    && (h.sym.None? ==> h == Idle(h.inflight))
    && (h.ticked ==> !h.fallback && !h.poll)
    && !(h.fallback && h.poll)
  }

  predicate Inv(w: World) {
    forall i :: 0 <= i < |w.hooks| ==> HookInv(w.hooks[i])
  }

  lemma StepKeepsInv(w: World, e: Event)
    requires Inv(w) && Enabled(w, e)
    ensures Inv(Next(w, e))
  {
    assert HookInv(w.hooks[e.hook]);
  }

  // In every run, a component has at most one timer; none once its listener has heard a tick, and none
  // while it has no effect.  So a firing timer never finds the tick flag set.
  lemma {:induction false} RunKeepsInv(worlds: seq<World>, events: seq<Event>, k: nat)
    requires Run(worlds, events) && k < |worlds|
    ensures Inv(worlds[k]) && |worlds[k].hooks| == |worlds[0].hooks|
  {
    if k > 0 {
      hide Inv, Enabled;
      assert Enabled(worlds[k - 1], events[k - 1]);
      RunKeepsInv(worlds, events, k - 1);
      StepKeepsInv(worlds[k - 1], events[k - 1]);
    } else {
      forall i | 0 <= i < |worlds[0].hooks|
        ensures HookInv(worlds[0].hooks[i])
      {
      }
    }
  }

  // ---------------------------------------------------------------------------
  // REST responses against ticks
  // ---------------------------------------------------------------------------

  // Component i heard a tick at step a, and its effect has not been cleaned up between then and step b.
  predicate HeardAt(events: seq<Event>, i: nat, a: nat, b: nat) {
    a < b <= |events| && events[a].Hear? && events[a].hook == i &&
    forall c :: a < c < b ==> events[c] != Cleanup(i)
  }

  ghost predicate HeardBefore(events: seq<Event>, i: nat, b: nat) {
    exists a: nat :: HeardAt(events, i, a, b)
  }

  lemma HeardStep(events: seq<Event>, i: nat, b: nat)
    requires b < |events|
    ensures HeardBefore(events, i, b + 1) <==>
            (events[b].Hear? && events[b].hook == i) || (HeardBefore(events, i, b) && events[b] != Cleanup(i))
  {
    if events[b].Hear? && events[b].hook == i {
      assert HeardAt(events, i, b, b + 1);
    } else if HeardBefore(events, i, b) && events[b] != Cleanup(i) {
      var a: nat :| HeardAt(events, i, a, b);
      assert HeardAt(events, i, a, b + 1);
    }
    if HeardBefore(events, i, b + 1) {
      var a: nat :| HeardAt(events, i, a, b + 1);
      if a < b {
        assert HeardAt(events, i, a, b);
      }
    }
  }

  // The shared tick flag says exactly that the current effect has heard a tick.
  lemma {:induction false} TickFlagIsHistory(worlds: seq<World>, events: seq<Event>, i: nat, b: nat)
    requires Run(worlds, events) && b < |worlds| && i < |worlds[0].hooks|
    ensures |worlds[b].hooks| == |worlds[0].hooks|
    ensures worlds[b].hooks[i].ticked <==> HeardBefore(events, i, b)
    decreases b
  {
    if b > 0 {
      hide HeardBefore;
      TickFlagIsHistory(worlds, events, i, b - 1);
      HeardStep(events, i, b - 1);
      RunKeepsInv(worlds, events, b - 1);
      assert HookInv(worlds[b - 1].hooks[i]);
      assert Enabled(worlds[b - 1], events[b - 1]) && worlds[b] == Next(worlds[b - 1], events[b - 1]);
    }
  }

  // A response reaches the snapshots exactly when it carries a quote and the component has heard no tick
  // since its current effect began; it then replaces the snapshot of the symbol it was asked for, which
  // may belong to an earlier effect, and its isLive is the quote's own flag.
  lemma ResponseWritesIffNoTick(worlds: seq<World>, events: seq<Event>, b: nat)
    requires Run(worlds, events) && b < |events| && events[b].Settle?
    ensures Enabled(worlds[b], events[b])
    ensures var e, h := events[b], worlds[b].hooks[events[b].hook];
            worlds[b + 1].stores ==
            if e.result.Some? && !HeardBefore(events, e.hook, b)
            then worlds[b].stores[h.inflight[e.k] := FromQuote(e.result.value, e.now)]
            else worlds[b].stores
  {
    hide HeardBefore;
    assert Enabled(worlds[b], events[b]) && worlds[b + 1] == Next(worlds[b], events[b]);
    RunKeepsInv(worlds, events, b);
    TickFlagIsHistory(worlds, events, events[b].hook, b);
  }

  // From the first tick of an effect to its cleanup no response of that component, whichever effect sent
  // the request, touches any snapshot, and neither timer is pending.
  lemma QuietAfterFirstTick(worlds: seq<World>, events: seq<Event>, i: nat, a: nat, b: nat)
    requires Run(worlds, events) && HeardAt(events, i, a, b)
    ensures i < |worlds[b].hooks| && !worlds[b].hooks[i].fallback && !worlds[b].hooks[i].poll
    ensures b < |events| && events[b].Settle? && events[b].hook == i ==> worlds[b + 1].stores == worlds[b].stores
  {
    hide Inv, Next;
    assert Enabled(worlds[a], events[a]);
    RunKeepsInv(worlds, events, a);
    RunKeepsInv(worlds, events, b);
    TickFlagIsHistory(worlds, events, i, b);
    assert HookInv(worlds[b].hooks[i]) by { InvAt(worlds[b], i); }
    if b < |events| && events[b].Settle? && events[b].hook == i {
      ResponseWritesIffNoTick(worlds, events, b);
    }
  }

  lemma InvAt(w: World, i: nat)
    requires Inv(w) && i < |w.hooks|
    ensures HookInv(w.hooks[i])
  {
  }

  // ---------------------------------------------------------------------------
  // What isLive means
  // ---------------------------------------------------------------------------

  datatype Write = ByTick(tick: Tick) | ByRest(quote: Quote, now: real)

  // What step c writes into the snapshot of sym: a tick heard for it, or a quote asked for it that
  // arrives while the component has heard no tick.
  ghost function WriteAt(worlds: seq<World>, events: seq<Event>, c: nat, sym: string): Option<Write>
    requires c < |events| && c < |worlds| && Enabled(worlds[c], events[c])
  {
    var h := worlds[c].hooks[events[c].hook];
    match events[c]
    case Hear(_, _) => if h.sym == Some(sym) then Some(ByTick(events[c].tick)) else None
    case Settle(i, k, Some(quote), now) =>
      if h.inflight[k] == sym && !HeardBefore(events, i, c) then Some(ByRest(quote, now)) else None
    case _ => None
  }

  lemma RunStep(worlds: seq<World>, events: seq<Event>, k: nat)
    requires Run(worlds, events) && k < |events|
    ensures k + 1 < |worlds| && Enabled(worlds[k], events[k]) && worlds[k + 1] == Next(worlds[k], events[k])
  {
    hide Enabled, Next;
  }

  // The last write to the snapshot of sym in the first b steps.
  ghost function LastWrite(worlds: seq<World>, events: seq<Event>, b: nat, sym: string): Option<Write>
    requires Run(worlds, events) && b <= |events|
  {
    if b == 0 then None
    else
      RunStep(worlds, events, b - 1);
      var w := WriteAt(worlds, events, b - 1, sym);
      if w.Some? then w else LastWrite(worlds, events, b - 1, sym)
  }

  // What a write leaves to be shown.
  predicate Written(shown: Snapshot, w: Write) {
    match w
    case ByTick(tick) => shown.ltp == Some(tick.ltp) && shown.changePct == tick.changePct && shown.ts == Some(tick.ts) && shown.isLive
    case ByRest(quote, now) =>
      shown.ltp == quote.ltp && shown.changePct == quote.changePct && shown.ts == Some(now) && shown.isLive == quote.live
  }

  predicate Shows(stores: map<string, Snapshot>, sym: string, w: Option<Write>) {
    && (sym in stores <==> w.Some?)
    && (sym in stores && w.Some? ==> Written(stores[sym], w.value))
  }

  lemma StepShows(worlds: seq<World>, events: seq<Event>, c: nat, sym: string, before: Option<Write>)
    requires Run(worlds, events) && c < |events| && Shows(worlds[c].stores, sym, before)
    ensures Enabled(worlds[c], events[c])
    ensures var w := WriteAt(worlds, events, c, sym); Shows(worlds[c + 1].stores, sym, if w.Some? then w else before)
  {
    RunStep(worlds, events, c);
    RunKeepsInv(worlds, events, c);
    TickFlagIsHistory(worlds, events, events[c].hook, c);
    hide HeardBefore, Run;
  }

  // In every run a symbol's snapshot is its last write: the price, change and time of that tick, or of
  // that quote at the time it came.
  lemma {:induction false} SnapshotIsLastWrite(worlds: seq<World>, events: seq<Event>, b: nat, sym: string)
    requires Run(worlds, events) && b <= |events|
    ensures b < |worlds| && Shows(worlds[b].stores, sym, LastWrite(worlds, events, b, sym))
    decreases b
  {
    if b > 0 {
      hide Run, WriteAt, Shows;
      RunStep(worlds, events, b - 1);
      SnapshotIsLastWrite(worlds, events, b - 1, sym);
      StepShows(worlds, events, b - 1, sym, LastWrite(worlds, events, b - 1, sym));
    }
  }

  // So it says isLive exactly when its last write was a tick, or a REST quote that calls itself live.
  lemma IsLiveIff(worlds: seq<World>, events: seq<Event>, b: nat, sym: string)
    requires Run(worlds, events) && b <= |events|
    ensures b < |worlds| && (sym in worlds[b].stores <==> LastWrite(worlds, events, b, sym).Some?)
    ensures var w := LastWrite(worlds, events, b, sym);
            w.Some? ==> (worlds[b].stores[sym].isLive <==> w.value.ByTick? || w.value.quote.live)
  {
    hide Run, LastWrite;
    SnapshotIsLastWrite(worlds, events, b, sym);
  }

  // ---------------------------------------------------------------------------
  // Effects, timers and requests, by what happened
  // ---------------------------------------------------------------------------

  // The symbol component i watches after the first b events.
  function Watched(events: seq<Event>, i: nat, b: nat): Option<string>
    requires b <= |events|
  {
    if b == 0 then None
    else
      match events[b - 1]
      case Mount(j, sym) => if i == j then Some(sym) else Watched(events, i, b - 1)
      case Cleanup(j) => if i == j then None else Watched(events, i, b - 1)
      case _ => Watched(events, i, b - 1)
  }

  // The symbols component i has asked for and not been answered, in order.
  function Asked(events: seq<Event>, i: nat, b: nat): seq<string>
    requires b <= |events|
  {
    if b == 0 then []
    else
      var asked, e := Asked(events, i, b - 1), events[b - 1];
      if e.hook != i then asked
      else if (e.FallbackFires? || e.PollFires?) && Watched(events, i, b - 1).Some? then
        asked + [Watched(events, i, b - 1).value]
      else if e.Settle? && e.k < |asked| then asked[..e.k] + asked[e.k + 1..]
      else asked
  }

  // Component i mounted at step a; its grace time has not ended since, by a tick, a cleanup or by itself.
  predicate WaitsSince(events: seq<Event>, i: nat, a: nat, b: nat) {
    a < b <= |events| && events[a].Mount? && events[a].hook == i &&
    forall c :: a < c < b && events[c].hook == i ==> !(events[c].Hear? || events[c].Cleanup? || events[c].FallbackFires?)
  }

  // Its grace time ended by itself at step a, and neither a tick nor a cleanup came since.
  predicate PollsSince(events: seq<Event>, i: nat, a: nat, b: nat) {
    a < b <= |events| && events[a].FallbackFires? && events[a].hook == i &&
    forall c :: a < c < b && events[c].hook == i ==> !(events[c].Hear? || events[c].Cleanup?)
  }

  ghost predicate Waits(events: seq<Event>, i: nat, b: nat) {
    exists a: nat :: WaitsSince(events, i, a, b)
  }

  ghost predicate Polls(events: seq<Event>, i: nat, b: nat) {
    exists a: nat :: PollsSince(events, i, a, b)
  }

  lemma WaitsStep(events: seq<Event>, i: nat, b: nat)
    requires b < |events|
    ensures var e := events[b];
            Waits(events, i, b + 1) <==>
            (e.Mount? && e.hook == i) || (Waits(events, i, b) && !(e.hook == i && (e.Hear? || e.Cleanup? || e.FallbackFires?)))
  {
    if events[b].Mount? && events[b].hook == i {
      assert WaitsSince(events, i, b, b + 1);
    } else if Waits(events, i, b) && !(events[b].hook == i && (events[b].Hear? || events[b].Cleanup? || events[b].FallbackFires?)) {
      var a: nat :| WaitsSince(events, i, a, b);
      assert WaitsSince(events, i, a, b + 1);
    }
    if Waits(events, i, b + 1) {
      var a: nat :| WaitsSince(events, i, a, b + 1);
      if a < b {
        assert WaitsSince(events, i, a, b);
      }
    }
  }

  lemma PollsStep(events: seq<Event>, i: nat, b: nat)
    requires b < |events|
    ensures var e := events[b];
            Polls(events, i, b + 1) <==>
            (e.FallbackFires? && e.hook == i) || (Polls(events, i, b) && !(e.hook == i && (e.Hear? || e.Cleanup?)))
  {
    if events[b].FallbackFires? && events[b].hook == i {
      assert PollsSince(events, i, b, b + 1);
    } else if Polls(events, i, b) && !(events[b].hook == i && (events[b].Hear? || events[b].Cleanup?)) {
      var a: nat :| PollsSince(events, i, a, b);
      assert PollsSince(events, i, a, b + 1);
    }
    if Polls(events, i, b + 1) {
      var a: nat :| PollsSince(events, i, a, b + 1);
      if a < b {
        assert PollsSince(events, i, a, b);
      }
    }
  }

  ghost predicate ByHistory(h: Hook, events: seq<Event>, i: nat, b: nat)
    requires b <= |events|
  {
    && h.sym == Watched(events, i, b)
    && (h.fallback <==> Waits(events, i, b))
    && (h.poll <==> Polls(events, i, b))
    && h.inflight == Asked(events, i, b)
  }

  lemma StepByHistory(h: Hook, events: seq<Event>, i: nat, b: nat)
    requires b < |events| && events[b].hook == i && HookEnabled(h, events[b]) && HookInv(h) && ByHistory(h, events, i, b)
    ensures ByHistory(NextHook(h, events[b]), events, i, b + 1)
  {
    WaitsStep(events, i, b);
    PollsStep(events, i, b);
    hide Waits, Polls;
  }

  lemma OtherByHistory(h: Hook, events: seq<Event>, i: nat, b: nat)
    requires b < |events| && events[b].hook != i && ByHistory(h, events, i, b)
    ensures ByHistory(h, events, i, b + 1)
  {
    WaitsStep(events, i, b);
    PollsStep(events, i, b);
    hide Waits, Polls;
  }

  // In every run a component watches the symbol of its last mount until the cleanup; its grace timer and
  // its poll run exactly from the mount and from the end of the grace time; and it has out exactly the
  // requests that these two made, each for the symbol watched at that time.
  lemma {:induction false} HookIsHistory(worlds: seq<World>, events: seq<Event>, i: nat, b: nat)
    requires Run(worlds, events) && b <= |events| && i < |worlds[0].hooks|
    ensures b < |worlds| && i < |worlds[b].hooks| && ByHistory(worlds[b].hooks[i], events, i, b)
    decreases b
  {
    if b == 0 {
      assert worlds[0].hooks[i] == Idle([]);
    } else {
      HookIsHistory(worlds, events, i, b - 1);
      RunStep(worlds, events, b - 1);
      RunKeepsInv(worlds, events, b - 1);
      hide Run, ByHistory;
      InvAt(worlds[b - 1], i);
      if events[b - 1].hook == i {
        StepByHistory(worlds[b - 1].hooks[i], events, i, b - 1);
      } else {
        OtherByHistory(worlds[b - 1].hooks[i], events, i, b - 1);
      }
    }
  }

  // The world a list of events leads to, if each is enabled in turn.
  function Play(w: World, events: seq<Event>): Option<World> {
    if events == [] then Some(w)
    else
      match Play(w, events[..|events| - 1])
      case None => None
      case Some(before) =>
        if Enabled(before, events[|events| - 1]) then Some(Next(before, events[|events| - 1])) else None
  }

  lemma PlayOn(w: World, events: seq<Event>, stores: map<string, Snapshot>, h: Hook,
               e: Event, stores': map<string, Snapshot>, h': Hook)
    requires Play(w, events) == Some(World(stores, [h])) && e.hook == 0 && HookEnabled(h, e)
    requires stores' == NextStores(stores, h, e) && h' == NextHook(h, e)
    ensures Play(w, events + [e]) == Some(World(stores', [h']))
  {
    assert (events + [e])[..|events + [e]| - 1] == events;
    var before := World(stores, [h]);
    assert [h][0 := h'] == [h'];
    assert Enabled(before, e) && Next(before, e) == World(stores', [h']);
  }

  lemma {:induction false} RunPlays(worlds: seq<World>, events: seq<Event>, n: nat)
    requires Run(worlds, events) && n <= |events|
    ensures n < |worlds| && Play(worlds[0], events[..n]) == Some(worlds[n])
  {
    if n == 0 {
      assert events[..0] == [];
    } else {
      RunPlays(worlds, events, n - 1);
      RunStep(worlds, events, n - 1);
      hide Run, Next, Enabled;
      assert events[..n][..n - 1] == events[..n - 1];
    }
  }

  // Across effects the guard does not hold: a component that moves from one symbol to another drops the
  // flag, and the response it still has out replaces the live snapshot of the symbol it left.
  lemma LateResponseReplacesLiveSnapshot(a: string, b: string, tick: Tick, quote: Quote, now: real)
    ensures var start := World(map[], [Idle([])]);
            var events := [Mount(0, a)] + [FallbackFires(0)] + [Hear(0, tick)] + [Cleanup(0)] + [Mount(0, b)];
            Play(start, events) == Some(World(map[a := FromTick(tick)], [Hook(Some(b), false, true, false, [a])])) &&
            Play(start, events + [Settle(0, 0, Some(quote), now)]) ==
              Some(World(map[a := FromQuote(quote, now)], [Hook(Some(b), false, true, false, [])]))
  {
    hide Play;
    var none, live, rest: map<string, Snapshot> := map[], map[a := FromTick(tick)], map[a := FromQuote(quote, now)];
    var h0, h1, h2 := Idle([]), Hook(Some(a), false, true, false, []), Hook(Some(a), false, false, true, [a]);
    var h3, h4, h5 := Hook(Some(a), true, false, false, [a]), Idle([a]), Hook(Some(b), false, true, false, [a]);
    var start := World(none, [h0]);
    assert Play(start, []) == Some(start) by { PlayNothing(start); }
    PlayOn(start, [], none, h0, Mount(0, a), none, h1);
    assert [] + [Mount(0, a)] == [Mount(0, a)];
    var e1 := [Mount(0, a)];
    assert NextHook(h1, FallbackFires(0)).inflight == [a];
    PlayOn(start, e1, none, h1, FallbackFires(0), none, h2);
    var e2 := e1 + [FallbackFires(0)];
    PlayOn(start, e2, none, h2, Hear(0, tick), live, h3);
    var e3 := e2 + [Hear(0, tick)];
    PlayOn(start, e3, live, h3, Cleanup(0), live, h4);
    var e4 := e3 + [Cleanup(0)];
    PlayOn(start, e4, live, h4, Mount(0, b), live, h5);
    var settle := Settle(0, 0, Some(quote), now);
    assert NextHook(h5, settle).inflight == [];
    PlayOn(start, e4 + [Mount(0, b)], live, h5, settle, rest, Hook(Some(b), false, true, false, []));
  }

  lemma PlayNext(w: World, events: seq<Event>, m: World, e: Event, n: World)
    requires Play(w, events) == Some(m) && Enabled(m, e) && n == Next(m, e)
    ensures Play(w, events + [e]) == Some(n)
  {
    assert (events + [e])[..|events + [e]| - 1] == events;
  }

  // Nor across components: one that mounts on the symbol after a tick has heard none, and its fallback's
  // quote replaces the live snapshot that the other one, still mounted, has heard.
  lemma SecondComponentReplacesLiveSnapshot(a: string, tick: Tick, quote: Quote, now: real)
    ensures var start := World(map[], [Idle([]), Idle([])]);
            var events := [Mount(0, a)] + [Hear(0, tick)] + [Mount(1, a)] + [FallbackFires(1)];
            var heard := Hook(Some(a), true, false, false, []);
            Play(start, events) == Some(World(map[a := FromTick(tick)], [heard, Hook(Some(a), false, false, true, [a])])) &&
            Play(start, events + [Settle(1, 0, Some(quote), now)]) ==
              Some(World(map[a := FromQuote(quote, now)], [heard, Hook(Some(a), false, false, true, [])]))
  {
    hide Play;
    var none, live, rest: map<string, Snapshot> := map[], map[a := FromTick(tick)], map[a := FromQuote(quote, now)];
    var idle, waiting := Idle([]), Hook(Some(a), false, true, false, []);
    var heard, asked := Hook(Some(a), true, false, false, []), Hook(Some(a), false, false, true, [a]);
    var start := World(none, [idle, idle]);
    PlayNothing(start);
    var e1 := [Mount(0, a)];
    assert [] + [Mount(0, a)] == e1;
    PlayNext(start, [], start, Mount(0, a), World(none, [waiting, idle]));
    PlayNext(start, e1, World(none, [waiting, idle]), Hear(0, tick), World(live, [heard, idle]));
    var e2 := e1 + [Hear(0, tick)];
    PlayNext(start, e2, World(live, [heard, idle]), Mount(1, a), World(live, [heard, waiting]));
    var e3 := e2 + [Mount(1, a)];
    assert NextHook(waiting, FallbackFires(1)).inflight == [a];
    PlayNext(start, e3, World(live, [heard, waiting]), FallbackFires(1), World(live, [heard, asked]));
    var settle := Settle(1, 0, Some(quote), now);
    assert NextHook(asked, settle).inflight == [];
    PlayNext(start, e3 + [FallbackFires(1)], World(live, [heard, asked]), settle, World(rest, [heard, asked.(inflight := [])]));
  }

  // The second case occurs: the fallback's quote, with no tick at all, shows as live.
  lemma RestShowsAsLive(a: string, quote: Quote, now: real)
    requires quote.live
    ensures var start := World(map[], [Idle([])]);
            var events := [Mount(0, a)] + [FallbackFires(0)] + [Settle(0, 0, Some(quote), now)];
            var end := Play(start, events);
            end.Some? && end.value.stores == map[a := FromQuote(quote, now)] && end.value.stores[a].isLive
  {
    hide Play;
    var none: map<string, Snapshot> := map[];
    var h0, h1, h2 := Idle([]), Hook(Some(a), false, true, false, []), Hook(Some(a), false, false, true, [a]);
    var start := World(none, [h0]);
    PlayNothing(start);
    PlayOn(start, [], none, h0, Mount(0, a), none, h1);
    var e1 := [Mount(0, a)];
    assert [] + [Mount(0, a)] == e1;
    assert NextHook(h1, FallbackFires(0)).inflight == [a];
    PlayOn(start, e1, none, h1, FallbackFires(0), none, h2);
    var settle := Settle(0, 0, Some(quote), now);
    assert NextHook(h2, settle).inflight == [];
    PlayOn(start, e1 + [FallbackFires(0)], none, h2, settle, map[a := FromQuote(quote, now)], h2.(inflight := []));
  }

  lemma PlayNothing(w: World)
    ensures Play(w, []) == Some(w)
  {
  }

  // ---------------------------------------------------------------------------
  // The hook's mutable state
  // ---------------------------------------------------------------------------

  // The module-level map of stores, shared by all components.
  class Stores {
    var snapshots: map<string, Snapshot>

    constructor ()
      ensures snapshots == map[]
    {
      snapshots := map[];
    }
  }

  class LiveQuote {
    const stores: Stores
    var sym: Option<string>
    var wsTickArrived: bool
    var fallbackTimer: bool
    var pollTimer: bool
    var inflight: seq<string>

    constructor (stores: Stores)
      ensures this.stores == stores && AsHook() == Idle([])
    {
      this.stores := stores;
      sym, wsTickArrived, fallbackTimer, pollTimer, inflight := None, false, false, false, [];
    }

    ghost function AsHook(): Hook
      reads this
    {
      Hook(sym, wsTickArrived, fallbackTimer, pollTimer, inflight)
    }

    // The state of this component and the shared snapshots after an event, by the functions above.
    twostate predicate Steps(e: Event)
      reads this, stores
    {
      HookEnabled(old(AsHook()), e) && AsHook() == NextHook(old(AsHook()), e) &&
      stores.snapshots == NextStores(old(stores.snapshots), old(AsHook()), e)
    }

    method FetchRest(s: string)
      modifies `inflight
      ensures inflight == old(inflight) + [s]
    {
      inflight := inflight + [s];
    }

    // The effect.
    method Subscribe(symbol: string)
      requires HookEnabled(AsHook(), Mount(0, symbol)) && HookInv(AsHook())
      modifies this
      ensures Steps(Mount(0, symbol)) && HookInv(AsHook())
    {
      sym, wsTickArrived, fallbackTimer := Some(symbol), false, true;
    }

    method Listener(tick: Tick)
      requires HookEnabled(AsHook(), Hear(0, tick)) && HookInv(AsHook())
      modifies this, stores
      ensures Steps(Hear(0, tick)) && HookInv(AsHook())
    {
      if !wsTickArrived {
        wsTickArrived, fallbackTimer, pollTimer := true, false, false;
      }
      stores.snapshots := stores.snapshots[sym.value := FromTick(tick)];
    }

    method OnFallback()
      requires HookEnabled(AsHook(), FallbackFires(0)) && HookInv(AsHook())
      modifies this
      ensures Steps(FallbackFires(0)) && HookInv(AsHook())
    {
      fallbackTimer := false;
      if !wsTickArrived {
        FetchRest(sym.value);
        pollTimer := true;
      }
    }

    method OnPoll()
      requires HookEnabled(AsHook(), PollFires(0))
      modifies this
      ensures Steps(PollFires(0)) && (old(HookInv(AsHook())) ==> HookInv(AsHook()))
    {
      if !wsTickArrived {
        FetchRest(sym.value);
      } else {
        pollTimer := false;
      }
    }

    method OnResponse(k: nat, result: Option<Quote>, now: real)
      requires HookEnabled(AsHook(), Settle(0, k, result, now)) && HookInv(AsHook())
      modifies this, stores
      ensures Steps(Settle(0, k, result, now)) && HookInv(AsHook())
    {
      var s := inflight[k];
      inflight := inflight[..k] + inflight[k + 1..];
      if result.None? || wsTickArrived {
        return;
      }
      stores.snapshots := stores.snapshots[s := FromQuote(result.value, now)];
    }

    method Unsubscribe()
      requires HookEnabled(AsHook(), Cleanup(0)) && HookInv(AsHook())
      modifies this
      ensures Steps(Cleanup(0)) && HookInv(AsHook())
    {
      sym, wsTickArrived, fallbackTimer, pollTimer := None, false, false, false;
    }
  }
}

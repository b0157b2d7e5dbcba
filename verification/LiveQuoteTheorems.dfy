// What holds in every run of the live-quote manager.
module LiveQuoteTheorems {
  import opened Options
  import opened Powers
  import opened Text
  import opened LiveQuoteProtocol

  // In every interleaving, the messages sent on an open current socket subscribe the server
  // to exactly the symbols with a positive count.
  lemma ServerTracksCounts(es: seq<Event>, ss: seq<State>, n: nat)
    requires Run(es, ss) && n < |ss|
    ensures ss[n].listeners.Keys == ss[n].counts.Keys
    ensures forall k :: k in ss[n].counts ==> ss[n].counts[k] >= 1
    ensures ss[n].HoldsReady(Open) ==>
              ServerSet(ss[n]) == Replay(ss[n].sockets[ss[n].ws.value].sent) == set k | k in ss[n].counts && ss[n].counts[k] > 0
  {
    RunKeepsInv(es, ss, n);
  }

  // A subscribed symbol is never left without a socket or a retry, unless the server said 4001;
  // with nothing subscribed, whatever is still held is due to be closed by the idle timer.
  lemma NeverStrandedNeverLeaking(es: seq<Event>, ss: seq<State>, n: nat)
    requires Run(es, ss) && n < |ss|
    ensures Total(ss[n].counts) > 0 ==>
              ss[n].ws.Some? || ss[n].reconnectTimer.Some? || ss[n].lastClose == Some(UNAUTHORIZED)
    ensures Total(ss[n].counts) == 0 && (ss[n].ws.Some? || ss[n].reconnectTimer.Some?) ==> IdleArmed(ss[n])
    ensures IdleArmed(ss[n]) ==> Total(ss[n].counts) == 0
    ensures forall t :: t in ss[n].pending ==> ss[n].idleTimer == Some(t) || ss[n].reconnectTimer == Some(t)
  {
    RunKeepsInv(es, ss, n);
    TotalZeroIffEmpty(ss[n].counts);
  }

  // ---------------------------------------------------------------------------
  // Backoff
  // ---------------------------------------------------------------------------

  // The step started a reconnect timer.
  predicate Schedules(s: State, n: State) {
    n.reconnectTimer.Some? && n.reconnectTimer != s.reconnectTimer
  }

  // A socket opened, or the idle timer closed the connection.
  ghost predicate Resets(s: State, e: Event) {
    e.OpenEvent? || (e.TimerEvent? && e.id in s.pending && s.pending[e.id].Idle? && Total(s.counts) == 0)
  }

  ghost predicate CountsAttempts(s: State, n: State, resets: bool) {
    && n.attempts == (if resets then 0 else s.attempts) + (if Schedules(s, n) then 1 else 0)
    && (Schedules(s, n) ==> n.reconnectTimer.value in n.pending && n.pending[n.reconnectTimer.value] == Reconnect(NextBackoff(s.attempts)))
    && (resets ==> !Schedules(s, n))
  }

  lemma SendKeepsTimers(s: State, m: Message)
    ensures var n := Send(s, m); n.attempts == s.attempts && n.reconnectTimer == s.reconnectTimer && n.pending == s.pending
  {
  }

  lemma ConnectCounts(s: State, o: Outcome)
    requires Timers(s)
    ensures CountsAttempts(s, Connect(s, o), false)
  {
  }

  lemma SubscribeCounts(s: State, symbol: string, l: nat, o: Outcome)
    requires Inv(s)
    ensures CountsAttempts(s, SubscribeCall(s, symbol, l, o), false)
  {
    hide Normalise;
    var a := AddOne(s, Normalise(symbol), l);
    assert Timers(a);
    var b := CancelIdle(a);
    CancelIdleEffect(a);
    ConnectCounts(b, o);
    SendKeepsTimers(Connect(b, o), Subscribe({Normalise(symbol)}));
    hide Connect, Send, CancelIdle, Inv, Timers, Total;
  }

  lemma StepCountsAttempts(s: State, e: Event)
    requires Inv(s) && Enabled(s, e)
    ensures CountsAttempts(s, Next(s, e), Resets(s, e))
  {
    hide Normalise, Replay, Total;
    match e
    case SubscribeEvent(symbol, l, o) => SubscribeCounts(s, symbol, l, o);
    case UnsubscribeEvent(symbol, l) => SendKeepsTimers(RemoveOne(s, Normalise(symbol), l), Unsubscribe(Normalise(symbol)));
    case OpenEvent(id) =>
      var a := SetReady(s, id, Open).(attempts := 0);
      SendKeepsTimers(a, Subscribe(Positive(a.counts)));
    case TimerEvent(id, o) =>
      if s.pending[id].Reconnect? {
        RetryCounts(s, id, o);
      }
    case _ =>
  }

  lemma RetryCounts(s: State, id: nat, o: Outcome)
    requires Inv(s) && id in s.pending && s.pending[id].Reconnect?
    ensures CountsAttempts(s, Connect(s.(pending := s.pending - {id}, reconnectTimer := None), o), false)
  {
    hide Replay, Total;
    ConnectCounts(s.(pending := s.pending - {id}, reconnectTimer := None), o);
  }

  // How many reconnects were scheduled since the last reset.
  ghost function RetriesSince(es: seq<Event>, ss: seq<State>, n: nat): nat
    requires |ss| == |es| + 1 && n <= |es|
  {
    if n == 0 || Resets(ss[n - 1], es[n - 1]) then 0
    else RetriesSince(es, ss, n - 1) + if Schedules(ss[n - 1], ss[n]) then 1 else 0
  }

  lemma {:induction false} AttemptsAreRetries(es: seq<Event>, ss: seq<State>, n: nat)
    requires Run(es, ss) && n < |ss|
    ensures ss[n].attempts == RetriesSince(es, ss, n)
  {
    if n > 0 {
      assert Enabled(ss[n - 1], es[n - 1]) && ss[n] == Next(ss[n - 1], es[n - 1]);
      hide Run, Enabled, Next, Inv, Resets, Schedules;
      AttemptsAreRetries(es, ss, n - 1);
      RunKeepsInv(es, ss, n - 1);
      StepCountsAttempts(ss[n - 1], es[n - 1]);
    }
  }

  // In every run, a reconnect scheduled as the k-th since a socket last opened or the connection was
  // last closed for idleness, counting from 0, waits min(1000 * 2^k, 30000) milliseconds.
  lemma RetriesBackOff(es: seq<Event>, ss: seq<State>, n: nat)
    requires Run(es, ss) && n < |es| && Schedules(ss[n], ss[n + 1])
    ensures ss[n + 1].reconnectTimer.value in ss[n + 1].pending
    ensures var wait := 1000 * Pow2(RetriesSince(es, ss, n));
            ss[n + 1].pending[ss[n + 1].reconnectTimer.value] == Reconnect(if wait < 30000 then wait else 30000)
  {
    hide Next, Inv, Resets, Schedules;
    AttemptsAreRetries(es, ss, n);
    RunKeepsInv(es, ss, n);
    StepCountsAttempts(ss[n], es[n]);
    BackoffIsCappedExponential(ss[n].attempts);
  }

  // ---------------------------------------------------------------------------
  // One live socket
  // ---------------------------------------------------------------------------

  predicate Live(k: Socket) {
    k.ready == Connecting || k.ready == Open
  }

  ghost predicate OnlyCurrentLive(s: State) {
    forall i :: 0 <= i < |s.sockets| && Live(s.sockets[i]) ==> s.ws == Some(i)
  }

  // The close event of one socket arrives while another, live one is installed.
  predicate LateClose(s: State, e: Event) {
    e.CloseEvent? && s.ws.Some? && s.ws.value != e.id && (s.HoldsReady(Open) || s.HoldsReady(Connecting))
  }

  lemma SendKeepsLive(s: State, m: Message)
    requires Sockets(s)
    ensures OnlyCurrentLive(Send(s, m)) <==> OnlyCurrentLive(s)
  {
    SendEffect(s, m);
    var n := Send(s, m);
    assert forall i :: 0 <= i < |s.sockets| ==> Live(n.sockets[i]) == Live(s.sockets[i]);
  }

  lemma ConnectKeepsOneLive(s: State, o: Outcome)
    requires Sockets(s) && OnlyCurrentLive(s)
    ensures OnlyCurrentLive(Connect(s, o))
  {
  }

  lemma SubscribeKeepsOneLive(s: State, symbol: string, l: nat, o: Outcome)
    requires Inv(s) && OnlyCurrentLive(s)
    ensures OnlyCurrentLive(SubscribeCall(s, symbol, l, o))
  {
    hide Normalise;
    var sym := Normalise(symbol);
    var a := AddOne(s, sym, l);
    AddOneEffect(s, sym, l);
    var b := CancelIdle(a);
    CancelIdleEffect(a);
    assert Sockets(b) && OnlyCurrentLive(b);
    var c := Connect(b, o);
    ConnectEffect(b, o);
    ConnectKeepsOneLive(b, o);
    SendKeepsLive(c, Subscribe({sym}));
    hide OnlyCurrentLive;
    assert SubscribeCall(s, symbol, l, o) == if CountOf(s, sym) == 0 then Send(c, Subscribe({sym})) else c;
  }

  lemma OpenKeepsOneLive(s: State, id: nat)
    requires Inv(s) && OnlyCurrentLive(s) && Enabled(s, OpenEvent(id))
    ensures OnlyCurrentLive(SocketOpened(s, id))
  {
    var a := SetReady(s, id, Open).(attempts := 0);
    OpenEffect(s, id);
    assert OnlyCurrentLive(a);
    SendKeepsLive(a, Subscribe(Positive(a.counts)));
  }

  lemma CloseAndOneLive(s: State, id: nat, code: int)
    requires Inv(s) && OnlyCurrentLive(s) && Enabled(s, CloseEvent(id, code))
    ensures OnlyCurrentLive(SocketClosed(s, id, code)) <==> !LateClose(s, CloseEvent(id, code))
  {
    var n := SocketClosed(s, id, code);
    assert n.ws == None && n.sockets == s.sockets[id := s.sockets[id].(ready := Closed)];
    if LateClose(s, CloseEvent(id, code)) {
      assert Live(n.sockets[s.ws.value]);
    }
  }

  lemma CloseConnectionKeepsOneLive(s: State)
    requires Sockets(s) && OnlyCurrentLive(s)
    ensures OnlyCurrentLive(CloseConnection(s))
  {
  }

  lemma TimerKeepsOneLive(s: State, id: nat, o: Outcome)
    requires Inv(s) && OnlyCurrentLive(s) && Enabled(s, TimerEvent(id, o))
    ensures OnlyCurrentLive(TimerFired(s, id, o))
  {
    var f := s.(pending := s.pending - {id});
    assert OnlyCurrentLive(f) && Sockets(f);
    ConnectKeepsOneLive(f.(reconnectTimer := None), o);
    CloseConnectionKeepsOneLive(f);
    hide Connect, CloseConnection, Total;
  }

  lemma UnsubscribeKeepsOneLive(s: State, symbol: string, l: nat)
    requires Inv(s) && OnlyCurrentLive(s)
    ensures OnlyCurrentLive(UnsubscribeCall(s, symbol, l))
  {
    var r := RemoveOne(s, Normalise(symbol), l);
    assert Sockets(r) && OnlyCurrentLive(r);
    SendKeepsLive(r, Unsubscribe(Normalise(symbol)));
  }

  lemma ClosingKeepsOneLive(s: State, id: nat)
    requires Inv(s) && OnlyCurrentLive(s) && Enabled(s, ClosingEvent(id))
    ensures OnlyCurrentLive(SetReady(s, id, Closing))
  {
  }

  lemma PingKeepsOneLive(s: State)
    requires Inv(s) && OnlyCurrentLive(s)
    ensures OnlyCurrentLive(Send(s, Pong))
  {
    SendKeepsLive(s, Pong);
  }

  lemma StepKeepsOneLive(s: State, e: Event)
    requires Inv(s) && OnlyCurrentLive(s) && Enabled(s, e)
    ensures OnlyCurrentLive(Next(s, e)) <==> !LateClose(s, e)
  {
    hide Inv, OnlyCurrentLive, SubscribeCall, SocketOpened, SocketClosed, TimerFired;
    match e
    case SubscribeEvent(symbol, l, o) => SubscribeKeepsOneLive(s, symbol, l, o);
    case UnsubscribeEvent(symbol, l) => UnsubscribeKeepsOneLive(s, symbol, l);
    case OpenEvent(id) => OpenKeepsOneLive(s, id);
    case ClosingEvent(id) => ClosingKeepsOneLive(s, id);
    case CloseEvent(id, code) => CloseAndOneLive(s, id, code);
    case PingEvent(id) => PingKeepsOneLive(s);
    case TimerEvent(id, o) => TimerKeepsOneLive(s, id, o);
  }

  // At most the current socket is ever live, exactly in the runs without a late close.
  lemma {:induction false} OneLiveIffNoLateClose(es: seq<Event>, ss: seq<State>)
    requires Run(es, ss)
    ensures (forall i :: 0 <= i < |ss| ==> OnlyCurrentLive(ss[i])) <==>
            (forall i :: 0 <= i < |es| ==> !LateClose(ss[i], es[i]))
  {
    assert OnlyCurrentLive(ss[0]);
    hide Next, Inv, OnlyCurrentLive, LateClose;
    forall i | 0 <= i < |es|
      ensures OnlyCurrentLive(ss[i]) ==> (OnlyCurrentLive(ss[i + 1]) <==> !LateClose(ss[i], es[i]))
    {
      RunKeepsInv(es, ss, i);
      if OnlyCurrentLive(ss[i]) {
        StepKeepsOneLive(ss[i], es[i]);
      }
    }
    if forall i :: 0 <= i < |es| ==> !LateClose(ss[i], es[i]) {
      for n := 0 to |es|
        invariant forall i :: 0 <= i <= n ==> OnlyCurrentLive(ss[i])
      {
        assert !LateClose(ss[n], es[n]);
      }
    } else {
      var k :| 0 <= k < |es| && LateClose(ss[k], es[k]);
      assert OnlyCurrentLive(ss[k]) ==> !OnlyCurrentLive(ss[k + 1]);
    }
  }

  // Such a run exists: the idle close of socket 0 is confirmed after a new subscriber made socket 1.
  lemma LateCloseLeaksASocket() returns (es: seq<Event>, ss: seq<State>)
    ensures Run(es, ss) && !OnlyCurrentLive(ss[|es|])
  {
    hide Next;
    var e0, e1, e2, e4 := SubscribeEvent("A", 1, Connects), UnsubscribeEvent("A", 1), TimerEvent(1, Connects), CloseEvent(0, 1000);
    var s3 := LeakFirstHalf();
    var s4, s5 := LeakSecondHalf(s3);
    var s1 := Next(INITIAL, e0);
    es, ss := [e0, e1, e2, e0, e4], [INITIAL, s1, Next(s1, e1), s3, s4, s5];
  }

  lemma LeakSecondHalf(s3: State) returns (s4: State, s5: State)
    requires s3 == State(None, map[], map[], None, Some(1), 0, [Socket(Closing, [])], map[], 2, None)
    ensures s4 == Next(s3, SubscribeEvent("A", 1, Connects))
    ensures Enabled(s4, CloseEvent(0, 1000)) && s5 == Next(s4, CloseEvent(0, 1000))
    ensures !OnlyCurrentLive(s5)
  {
    hide Normalise;
    s4 := Next(s3, SubscribeEvent("A", 1, Connects));
    assert s4.ws == Some(1) && s4.sockets == [Socket(Closing, []), Socket(Connecting, [])];
    s5 := Next(s4, CloseEvent(0, 1000));
    assert Live(s5.sockets[1]) && s5.ws == None;
  }

  lemma LeakFirstHalf() returns (s3: State)
    ensures var s1 := Next(INITIAL, SubscribeEvent("A", 1, Connects));
            var s2 := Next(s1, UnsubscribeEvent("A", 1));
            && Enabled(s2, TimerEvent(1, Connects)) && s3 == Next(s2, TimerEvent(1, Connects))
            && s3 == State(None, map[], map[], None, Some(1), 0, [Socket(Closing, [])], map[], 2, None)
  {
    assert Normalise("A") == "A" by {
      TrimTrimmed("A");
      assert Upper("A") == "A" && Underscores("A") == "A";
    }
    var s1 := LeakSubscribed();
    var s2 := LeakUnsubscribed(s1);
    hide UnsubscribeCall, SubscribeCall, Normalise;
    s3 := Next(s2, TimerEvent(1, Connects));
  }

  lemma LeakSubscribed() returns (s1: State)
    requires Normalise("A") == "A"
    ensures s1 == Next(INITIAL, SubscribeEvent("A", 1, Connects))
    ensures s1 == State(Some(0), map["A" := {1}], map["A" := 1], None, None, 0, [Socket(Connecting, [])], map[], 1, None)
  {
    hide Normalise;
    s1 := Next(INITIAL, SubscribeEvent("A", 1, Connects));
    SubscribeTables(INITIAL, "A", 1, Connects);
    assert ListenersOf(INITIAL, "A") + {1} == {1};
  }

  lemma LeakUnsubscribed(s1: State) returns (s2: State)
    requires Normalise("A") == "A"
    requires s1 == State(Some(0), map["A" := {1}], map["A" := 1], None, None, 0, [Socket(Connecting, [])], map[], 1, None)
    ensures s2 == Next(s1, UnsubscribeEvent("A", 1))
    ensures s2 == State(Some(0), map[], map[], None, Some(1), 0, [Socket(Connecting, [])], map[1 := Idle], 2, None)
  {
    hide Normalise;
    s2 := Next(s1, UnsubscribeEvent("A", 1));
    UnsubscribeTables(s1, "A", 1);
    assert s2.counts == map[] && s2.listeners == map[];
  }

  // ---------------------------------------------------------------------------
  // Clients that pair their calls as useLiveQuote does
  // ---------------------------------------------------------------------------

  // Which listeners are mounted, and for which normalised symbol.
  function MountsAfter(es: seq<Event>): map<nat, string> {
    if es == [] then map[] else MountsStep(MountsAfter(es[..|es| - 1]), es[|es| - 1])
  }

  // Every mount brings a listener not in use and is unsubscribed at most once, for its own symbol.
  ghost predicate Paired(es: seq<Event>) {
    forall i :: 0 <= i < |es| ==> PairedCall(MountsAfter(es[..i]), es[i])
  }

  predicate PairedCall(mounts: map<nat, string>, e: Event) {
    match e
    case SubscribeEvent(_, l, _) => l !in mounts
    case UnsubscribeEvent(symbol, l) => l in mounts && mounts[l] == Normalise(symbol)
    case _ => true
  }

  function MountedAt(mounts: map<nat, string>, sym: string): set<nat> {
    set l | l in mounts && mounts[l] == sym
  }

  // A tick goes to the listeners registered for the normalised symbol of the frame.
  ghost function TickReceivers(s: State, symbol: string): set<nat> {
    ListenersOf(s, Normalise(symbol))
  }

  ghost predicate CountsMounts(s: State, mounts: map<nat, string>) {
    forall sym: string :: ListenersOf(s, sym) == MountedAt(mounts, sym) && CountOf(s, sym) == |MountedAt(mounts, sym)|
  }

  function MountsStep(mounts: map<nat, string>, e: Event): map<nat, string> {
    match e
    case SubscribeEvent(symbol, l, _) => mounts[l := Normalise(symbol)]
    case UnsubscribeEvent(_, l) => mounts - {l}
    case _ => mounts
  }

  lemma MountAdds(s: State, n: State, mounts: map<nat, string>, sym: string, l: nat)
    requires CountsMounts(s, mounts) && l !in mounts
    requires n.counts == s.counts[sym := CountOf(s, sym) + 1]
    requires n.listeners == s.listeners[sym := ListenersOf(s, sym) + {l}]
    ensures CountsMounts(n, mounts[l := sym])
  {
    forall x: string
      ensures ListenersOf(n, x) == MountedAt(mounts[l := sym], x)
      ensures CountOf(n, x) == |MountedAt(mounts[l := sym], x)|
    {
      assert ListenersOf(s, x) == MountedAt(mounts, x);
      if x == sym {
        assert MountedAt(mounts[l := sym], x) == MountedAt(mounts, x) + {l};
      } else {
        assert MountedAt(mounts[l := sym], x) == MountedAt(mounts, x);
      }
    }
  }

  lemma UnmountRemoves(s: State, n: State, mounts: map<nat, string>, l: nat)
    requires Tables(s) && CountsMounts(s, mounts) && l in mounts
    requires var sym := mounts[l];
             if CountOf(s, sym) <= 1
             then n.counts == s.counts - {sym} && n.listeners == s.listeners - {sym}
             else && sym in s.listeners && n.counts == s.counts[sym := CountOf(s, sym) - 1]
                  && n.listeners == s.listeners[sym := s.listeners[sym] - {l}]
    ensures CountsMounts(n, mounts - {l})
  {
    var sym, m := mounts[l], mounts - {l};
    assert ListenersOf(s, sym) == MountedAt(mounts, sym) && l in MountedAt(mounts, sym);
    assert MountedAt(m, sym) == MountedAt(mounts, sym) - {l};
    assert |MountedAt(m, sym)| == 0 ==> MountedAt(m, sym) == {};
    forall x: string
      ensures ListenersOf(n, x) == MountedAt(m, x) && CountOf(n, x) == |MountedAt(m, x)|
    {
      if x != sym {
        assert ListenersOf(s, x) == MountedAt(mounts, x);
        assert MountedAt(m, x) == MountedAt(mounts, x);
      }
    }
  }

  lemma StepCountsMounts(s: State, mounts: map<nat, string>, e: Event)
    requires Tables(s) && Enabled(s, e) && CountsMounts(s, mounts) && PairedCall(mounts, e)
    ensures CountsMounts(Next(s, e), MountsStep(mounts, e))
  {
    hide CountsMounts, SubscribeCall, UnsubscribeCall, Normalise;
    match e
    case SubscribeEvent(symbol, l, o) =>
      SubscribeTables(s, symbol, l, o);
      MountAdds(s, Next(s, e), mounts, Normalise(symbol), l);
    case UnsubscribeEvent(symbol, l) =>
      UnsubscribeTables(s, symbol, l);
      UnmountRemoves(s, Next(s, e), mounts, l);
    case _ =>
      OtherTables(s, e);
      SameTablesSameMounts(s, Next(s, e), mounts);
  }

  lemma SameTablesSameMounts(s: State, n: State, mounts: map<nat, string>)
    requires CountsMounts(s, mounts) && n.counts == s.counts && n.listeners == s.listeners
    ensures CountsMounts(n, mounts)
  {
    forall x: string
      ensures ListenersOf(n, x) == MountedAt(mounts, x) && CountOf(n, x) == |MountedAt(mounts, x)|
    {
      assert ListenersOf(s, x) == MountedAt(mounts, x);
    }
  }

  lemma {:induction false} RunCountsMounts(es: seq<Event>, ss: seq<State>, n: nat)
    requires Run(es, ss) && Paired(es) && n < |ss|
    ensures CountsMounts(ss[n], MountsAfter(es[..n]))
  {
    if n == 0 {
      assert es[..0] == [];
    } else {
      RunCountsMounts(es, ss, n - 1);
      RunKeepsInv(es, ss, n - 1);
      assert es[..n][..n - 1] == es[..n - 1];
      StepCountsMounts(ss[n - 1], MountsAfter(es[..n - 1]), es[n - 1]);
    }
  }

  // Under that discipline a count is the number of mounts, and a tick reaches exactly the mounted listeners.
  lemma PairedClientsAreCounted(es: seq<Event>, ss: seq<State>, n: nat, symbol: string)
    requires Run(es, ss) && Paired(es) && n < |ss|
    ensures var mounted := MountedAt(MountsAfter(es[..n]), Normalise(symbol));
            && TickReceivers(ss[n], symbol) == mounted
            && CountOf(ss[n], Normalise(symbol)) == |mounted| == |ListenersOf(ss[n], Normalise(symbol))|
  {
    RunCountsMounts(es, ss, n);
  }

  // Every count is the size of its listener set.
  ghost predicate Balanced(s: State) {
    forall k :: k in s.counts && k in s.listeners ==> s.counts[k] == |s.listeners[k]|
  }

  // Without the discipline counts drift: a call keeps counts and listener sets in step exactly when it
  // adds a new listener, removes a registered one, or drops the symbol altogether.
  lemma BalanceExactly(s: State, e: Event)
    requires Tables(s) && Balanced(s) && Enabled(s, e)
    ensures Balanced(Next(s, e)) <==>
              match e
              case SubscribeEvent(symbol, l, _) => l !in ListenersOf(s, Normalise(symbol))
              case UnsubscribeEvent(symbol, l) =>
                l in ListenersOf(s, Normalise(symbol)) || CountOf(s, Normalise(symbol)) <= 1
              case _ => true
  {
    var n := Next(s, e);
    match e
    case SubscribeEvent(symbol, l, o) =>
      var sym := Normalise(symbol);
      SubscribeTables(s, symbol, l, o);
      hide Next, SubscribeCall, Normalise;
      assert sym in n.counts && sym in n.listeners;
      assert l in ListenersOf(s, sym) ==> ListenersOf(s, sym) + {l} == ListenersOf(s, sym);
    case UnsubscribeEvent(symbol, l) =>
      var sym := Normalise(symbol);
      UnsubscribeTables(s, symbol, l);
      hide Next, UnsubscribeCall, Normalise;
      if CountOf(s, sym) > 1 && l !in s.listeners[sym] {
        assert s.listeners[sym] - {l} == s.listeners[sym];
        assert sym in n.counts && sym in n.listeners;
      }
    case _ =>
      OtherTables(s, e);
  }
}

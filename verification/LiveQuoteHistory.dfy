// liveQuoteManager.ts told by what happened: when a reconnect is scheduled, a socket made, a message sent.
module LiveQuoteHistory {
  import opened Options
  import opened Text
  import opened LiveQuoteProtocol
  import opened LiveQuoteTheorems

  lemma RunStep(es: seq<Event>, ss: seq<State>, k: nat)
    requires Run(es, ss) && k < |es|
    ensures |ss| == |es| + 1 && Enabled(ss[k], es[k]) && ss[k + 1] == Next(ss[k], es[k])
  {
    hide Enabled, Next;
  }

  // The manager holds a socket that is open or on its way there.
  predicate HoldsLive(s: State) {
    s.HoldsReady(Open) || s.HoldsReady(Connecting)
  }

  // The step calls connect(), with this outcome should it get to making a socket.
  predicate CallsConnect(s: State, e: Event) {
    e.SubscribeEvent? || (e.TimerEvent? && e.id in s.pending && s.pending[e.id].Reconnect?)
  }

  // What connect() does to sockets and reconnect timer.
  predicate Attempted(s: State, n: State, o: Outcome) {
    if HoldsLive(s) then |n.sockets| == |s.sockets| && n.ws == s.ws && n.reconnectTimer == s.reconnectTimer
    else if o.Connects? then
      && |n.sockets| == |s.sockets| + 1 && n.ws == Some(|s.sockets|) && n.reconnectTimer == s.reconnectTimer
      && n.sockets[|s.sockets|].ready == Connecting
    else
      && |n.sockets| == |s.sockets| && n.ws == s.ws
      && n.reconnectTimer == if s.reconnectTimer.Some? then s.reconnectTimer else Some(s.nextTimer)
  }

  lemma ConnectAttempts(s: State, o: Outcome)
    ensures Attempted(s, Connect(s, o), o) && Connect(s, o).lastClose == s.lastClose
  {
  }

  lemma SubscribeAttempts(s: State, symbol: string, l: nat, o: Outcome)
    requires Inv(s)
    ensures Attempted(s, SubscribeCall(s, symbol, l, o), o) && SubscribeCall(s, symbol, l, o).lastClose == s.lastClose
  {
    hide Normalise;
    var sym := Normalise(symbol);
    var a := AddOne(s, sym, l);
    AddOneEffect(s, sym, l);
    var b := CancelIdle(a);
    CancelIdleEffect(a);
    assert HoldsLive(b) == HoldsLive(s) && b.sockets == s.sockets && b.ws == s.ws && b.nextTimer == s.nextTimer;
    assert Sockets(b);
    ConnectAttempts(b, o);
    ConnectEffect(b, o);
    var c := Connect(b, o);
    SendEffect(c, Subscribe({sym}));
    hide Inv, Send, Connect, CancelIdle, AddOne, Timers, Sockets, ServerSet, Tables;
    assert SubscribeCall(s, symbol, l, o) == if CountOf(s, sym) == 0 then Send(c, Subscribe({sym})) else c;
  }

  lemma UnsubscribeKeeps(s: State, symbol: string, l: nat)
    requires Inv(s)
    ensures var n := UnsubscribeCall(s, symbol, l);
            n.ws == s.ws && |n.sockets| == |s.sockets| && n.reconnectTimer == s.reconnectTimer && n.lastClose == s.lastClose
  {
    hide Normalise, Total;
    var r := RemoveOne(s, Normalise(symbol), l);
    DropEffect(r, Normalise(symbol));
    hide DropSymbol, ServerSet;
  }

  // ---------------------------------------------------------------------------
  // Sockets and reconnects
  // ---------------------------------------------------------------------------

  // A close with a code other than 4001 while something is subscribed, or a connect() that throws while no
  // live socket is held; in both cases only when no reconnect is waiting already.
  predicate CallsForReconnect(s: State, e: Event) {
    match e
    case CloseEvent(_, code) => code != 4001 && s.counts != map[] && s.reconnectTimer.None?
    case SubscribeEvent(_, _, o) => o != Connects && !HoldsLive(s) && s.reconnectTimer.None?
    case TimerEvent(_, o) => CallsConnect(s, e) && o != Connects && !HoldsLive(s)
    case _ => false
  }

  lemma CloseSchedules(s: State, id: nat, code: int)
    requires Inv(s) && Enabled(s, CloseEvent(id, code))
    ensures var n := SocketClosed(s, id, code);
            && (Schedules(s, n) <==> CallsForReconnect(s, CloseEvent(id, code)))
            && |n.sockets| == |s.sockets| && n.lastClose == Some(code)
  {
    TotalZeroIffEmpty(s.counts);
  }

  lemma TimerSchedules(s: State, id: nat, o: Outcome)
    requires Inv(s) && Enabled(s, TimerEvent(id, o))
    ensures var e, n := TimerEvent(id, o), TimerFired(s, id, o);
            && (Schedules(s, n) <==> CallsForReconnect(s, e))
            && n.lastClose == s.lastClose
            && (if CallsConnect(s, e) && o == Connects && !HoldsLive(s)
                then |n.sockets| == |s.sockets| + 1 && n.ws == Some(|s.sockets|) && n.sockets[|s.sockets|].ready == Connecting
                else |n.sockets| == |s.sockets|)
  {
    hide Replay, Total;
    if s.pending[id].Reconnect? {
      var g := s.(pending := s.pending - {id}, reconnectTimer := None);
      ConnectAttempts(g, o);
      assert HoldsLive(g) == HoldsLive(s);
      hide Connect;
    }
  }

  lemma StepSchedulesIff(s: State, e: Event)
    requires Inv(s) && Enabled(s, e)
    ensures var n := Next(s, e);
            && (Schedules(s, n) <==> CallsForReconnect(s, e))
            && n.lastClose == (if e.CloseEvent? then Some(e.code) else s.lastClose)
            && (if CallsConnect(s, e) && e.outcome == Connects && !HoldsLive(s)
                then |n.sockets| == |s.sockets| + 1 && n.ws == Some(|s.sockets|) && n.sockets[|s.sockets|].ready == Connecting
                else |n.sockets| == |s.sockets|)
  {
    hide SubscribeCall, UnsubscribeCall, SocketClosed, TimerFired, Total, Replay;
    match e
    case SubscribeEvent(symbol, l, o) =>
      SubscribeAttempts(s, symbol, l, o);
    case UnsubscribeEvent(symbol, l) => UnsubscribeKeeps(s, symbol, l);
    case OpenEvent(id) => OpenKeeps(s, id);
    case CloseEvent(id, code) => CloseSchedules(s, id, code);
    case TimerEvent(id, o) => TimerSchedules(s, id, o);
    case PingEvent(id) => SendKeepsTimers(s, Pong);
    case ClosingEvent(id) =>
  }

  lemma OpenKeeps(s: State, id: nat)
    requires Inv(s) && Enabled(s, OpenEvent(id))
    ensures var n := SocketOpened(s, id);
            n.ws == s.ws && |n.sockets| == |s.sockets| && n.reconnectTimer == s.reconnectTimer && n.lastClose == s.lastClose
  {
    var a := SetReady(s, id, Open).(attempts := 0);
    hide Positive;
  }

  // In every run, a step schedules a reconnect exactly when it is a close with a code other than 4001 while
  // something is subscribed, or a connect() that throws; and no reconnect is waiting already.
  lemma SchedulesExactly(es: seq<Event>, ss: seq<State>, n: nat)
    requires Run(es, ss) && n < |es|
    ensures Enabled(ss[n], es[n])
    ensures Schedules(ss[n], ss[n + 1]) <==> CallsForReconnect(ss[n], es[n])
    ensures es[n].CloseEvent? ==>
              (Schedules(ss[n], ss[n + 1]) <==>
               es[n].code != 4001 && (exists k :: k in ss[n].counts && ss[n].counts[k] > 0) && ss[n].reconnectTimer.None?)
  {
    RunStep(es, ss, n);
    RunKeepsInv(es, ss, n);
    hide Run, Next, Enabled, Schedules;
    StepSchedulesIff(ss[n], es[n]);
    hide Inv;
    SubscribedIffCounted(es, ss, n);
  }

  lemma SubscribedIffCounted(es: seq<Event>, ss: seq<State>, n: nat)
    requires Run(es, ss) && n < |ss|
    ensures ss[n].counts != map[] <==> exists k :: k in ss[n].counts && ss[n].counts[k] > 0
  {
    ServerTracksCounts(es, ss, n);
    hide Run;
    if ss[n].counts != map[] {
      var k :| k in ss[n].counts;
    }
  }

  // In every run, a step makes a socket exactly when it calls connect(), which succeeds, while no live one is
  // held; the new one is then the one held.
  lemma SocketsMadeExactly(es: seq<Event>, ss: seq<State>, n: nat)
    requires Run(es, ss) && n < |es|
    ensures if CallsConnect(ss[n], es[n]) && es[n].outcome == Connects && !HoldsLive(ss[n])
            then |ss[n + 1].sockets| == |ss[n].sockets| + 1 && ss[n + 1].ws == Some(|ss[n].sockets|) && HoldsLive(ss[n + 1])
            else |ss[n + 1].sockets| == |ss[n].sockets|
  {
    RunStep(es, ss, n);
    RunKeepsInv(es, ss, n);
    hide Run, Next, Enabled, Schedules, Inv;
    StepSchedulesIff(ss[n], es[n]);
  }

  // The code of the last close event.
  function LastCloseOf(es: seq<Event>): Option<int> {
    if es == [] then None
    else if es[|es| - 1].CloseEvent? then Some(es[|es| - 1].code)
    else LastCloseOf(es[..|es| - 1])
  }

  lemma {:induction false} LastCloseIsHistory(es: seq<Event>, ss: seq<State>, n: nat)
    requires Run(es, ss) && n <= |es| && |ss| == |es| + 1
    ensures ss[n].lastClose == LastCloseOf(es[..n])
    decreases n
  {
    if n == 0 {
      assert es[..0] == [];
    } else {
      RunStep(es, ss, n - 1);
      RunKeepsInv(es, ss, n - 1);
      hide Run, Next, Enabled, Schedules, Inv;
      LastCloseIsHistory(es, ss, n - 1);
      StepSchedulesIff(ss[n - 1], es[n - 1]);
      assert es[..n][..n - 1] == es[..n - 1];
    }
  }

  // A subscribed symbol is never left without a socket or a retry, unless the last close had code 4001.
  lemma StrandedOnlyAfter4001(es: seq<Event>, ss: seq<State>, n: nat)
    requires Run(es, ss) && n <= |es| && |ss| == |es| + 1
    ensures ss[n].counts != map[] && ss[n].ws.None? && ss[n].reconnectTimer.None? ==> LastCloseOf(es[..n]) == Some(4001)
  {
    RunKeepsInv(es, ss, n);
    LastCloseIsHistory(es, ss, n);
    hide Run;
  }

  // ---------------------------------------------------------------------------
  // Messages
  // ---------------------------------------------------------------------------

  // What a step sends, if the socket held afterwards is open.
  function MessagesOf(s: State, e: Event): seq<Message> {
    match e
    case SubscribeEvent(symbol, _, _) =>
      if Normalise(symbol) in s.counts then [] else [Subscribe({Normalise(symbol)})]
    case UnsubscribeEvent(symbol, _) =>
      if Normalise(symbol) in s.counts && s.counts[Normalise(symbol)] > 1 then [] else [Unsubscribe(Normalise(symbol))]
    case OpenEvent(_) => if s.counts == map[] then [] else [Subscribe(s.counts.Keys)]
    case PingEvent(_) => [Pong]
    case _ => []
  }

  // n has sent ms on its current socket, if that is open, and nothing else since s.
  predicate SentOnly(s: State, n: State, ms: seq<Message>) {
    |s.sockets| <= |n.sockets| &&
    forall j :: 0 <= j < |n.sockets| ==>
      n.sockets[j].sent == (if j < |s.sockets| then s.sockets[j].sent else [])
                           + (if n.HoldsReady(Open) && n.ws == Some(j) then ms else [])
  }

  lemma SendSends(s: State, m: Message)
    requires Sockets(s)
    ensures SentOnly(s, Send(s, m), [m])
  {
    SendEffect(s, m);
  }

  lemma ConnectSendsNothing(s: State, o: Outcome)
    requires Sockets(s)
    ensures SentOnly(s, Connect(s, o), [])
  {
  }

  lemma SentAfterNothing(s: State, m: State, n: State, ms: seq<Message>)
    requires SentOnly(s, m, []) && SentOnly(m, n, ms)
    ensures SentOnly(s, n, ms)
  {
  }

  lemma SubscribeSends(s: State, symbol: string, l: nat, o: Outcome)
    requires Inv(s)
    ensures SentOnly(s, SubscribeCall(s, symbol, l, o), MessagesOf(s, SubscribeEvent(symbol, l, o)))
  {
    hide Normalise;
    var sym := Normalise(symbol);
    var a := AddOne(s, sym, l);
    AddOneEffect(s, sym, l);
    var b := CancelIdle(a);
    CancelIdleEffect(a);
    assert b.sockets == s.sockets && Sockets(b);
    var c := Connect(b, o);
    ConnectSendsNothing(b, o);
    ConnectEffect(b, o);
    SendSends(c, Subscribe({sym}));
    assert CountOf(s, sym) == 0 <==> sym !in s.counts;
    assert SentOnly(s, c, []);
    hide Inv, Send, Connect, CancelIdle, AddOne, Timers, Sockets, ServerSet, Tables;
    assert SubscribeCall(s, symbol, l, o) == if CountOf(s, sym) == 0 then Send(c, Subscribe({sym})) else c;
    if CountOf(s, sym) == 0 {
      SentAfterNothing(s, c, Send(c, Subscribe({sym})), [Subscribe({sym})]);
    }
  }

  lemma UnsubscribeSends(s: State, symbol: string, l: nat)
    requires Inv(s)
    ensures SentOnly(s, UnsubscribeCall(s, symbol, l), MessagesOf(s, UnsubscribeEvent(symbol, l)))
  {
    hide Normalise, Total, Replay;
    var sym := Normalise(symbol);
    var r := RemoveOne(s, sym, l);
    assert Sockets(r) && r.sockets == s.sockets && r.ws == s.ws;
    SendSends(r, Unsubscribe(sym));
    assert r.counts[sym] == 0 <==> !(sym in s.counts && s.counts[sym] > 1);
    var a := if r.counts[sym] == 0 then DropSymbol(r, sym) else r;
    assert SentOnly(s, a, MessagesOf(s, UnsubscribeEvent(symbol, l)));
    hide Inv, Send, RemoveOne, DropSymbol, MessagesOf, ServerSet;
    var n := UnsubscribeCall(s, symbol, l);
    assert n.sockets == a.sockets && n.ws == a.ws;
  }

  lemma OpenSends(s: State, id: nat)
    requires Inv(s) && Enabled(s, OpenEvent(id))
    ensures SentOnly(s, SocketOpened(s, id), MessagesOf(s, OpenEvent(id)))
  {
    OpenEffect(s, id);
    var a := SetReady(s, id, Open).(attempts := 0);
    assert SentOnly(s, a, []) by {
      assert forall j :: 0 <= j < |a.sockets| ==> a.sockets[j].sent == s.sockets[j].sent;
    }
    assert Positive(a.counts) == s.counts.Keys;
    SendSends(a, Subscribe(s.counts.Keys));
    hide Inv, SetReady, Send, ServerSet, Positive;
    SentAfterNothing(s, a, Send(a, Subscribe(s.counts.Keys)), [Subscribe(s.counts.Keys)]);
  }

  lemma TimerSendsNothing(s: State, id: nat, o: Outcome)
    requires Inv(s) && Enabled(s, TimerEvent(id, o))
    ensures SentOnly(s, TimerFired(s, id, o), [])
  {
    hide Replay, Total;
    if s.pending[id].Reconnect? {
      ConnectSendsNothing(s.(pending := s.pending - {id}, reconnectTimer := None), o);
      hide Connect;
    }
  }

  lemma CloseSendsNothing(s: State, id: nat, code: int)
    requires Inv(s) && Enabled(s, CloseEvent(id, code))
    ensures SentOnly(s, SocketClosed(s, id, code), [])
  {
    hide Total, Replay;
  }

  // In every run, a step sends on the socket it leaves open and held: a subscribe for the first listener of a
  // symbol, an unsubscribe when none is left, all subscribed symbols when a socket opens, a pong for a ping,
  // and nothing else; on other sockets nothing at all.
  lemma MessagesSentExactly(es: seq<Event>, ss: seq<State>, n: nat)
    requires Run(es, ss) && n < |es|
    ensures SentOnly(ss[n], ss[n + 1], MessagesOf(ss[n], es[n]))
  {
    RunStep(es, ss, n);
    RunKeepsInv(es, ss, n);
    StepSends(ss[n], es[n]);
  }

  lemma StepSends(s: State, e: Event)
    requires Inv(s) && Enabled(s, e)
    ensures SentOnly(s, Next(s, e), MessagesOf(s, e))
  {
    hide SubscribeCall, UnsubscribeCall, SocketOpened, SocketClosed, TimerFired, Total, Replay, Send;
    match e
    case SubscribeEvent(symbol, l, o) => SubscribeSends(s, symbol, l, o);
    case UnsubscribeEvent(symbol, l) => UnsubscribeSends(s, symbol, l);
    case OpenEvent(id) => OpenSends(s, id);
    case CloseEvent(id, code) => CloseSendsNothing(s, id, code);
    case TimerEvent(id, o) => TimerSendsNothing(s, id, o);
    case PingEvent(id) => SendSends(s, Pong);
    case ClosingEvent(id) =>
  }
}

// The state of liveQuoteManager.ts together with the part of the browser it talks to
// (its sockets and its pending timers), and one transition per event.
module LiveQuoteProtocol {
  import opened Options
  import opened Powers
  import opened Text

  datatype Message = Subscribe(symbols: set<string>) | Unsubscribe(symbol: string) | Pong

  datatype Ready = Connecting | Open | Closing | Closed

  // `sent` is everything the manager ever sent on the socket.
  datatype Socket = Socket(ready: Ready, sent: seq<Message>)

  datatype Timer = Idle | Reconnect(delay: nat)

  // What the environment answers when connect() gets as far as making a socket.
  datatype Outcome = Connects | UrlThrows | SocketThrows

  datatype State = State(
    ws: Option<nat>,
    listeners: map<string, set<nat>>,
    counts: map<string, int>,
    reconnectTimer: Option<nat>,
    idleTimer: Option<nat>,
    attempts: nat,
    sockets: seq<Socket>,
    pending: map<nat, Timer>,
    nextTimer: nat,
    lastClose: Option<int>)
  {
    // The socket the manager holds is in ready state r.
    predicate HoldsReady(r: Ready) {
      ws.Some? && ws.value < |sockets| && sockets[ws.value].ready == r
    }
  }

  const INITIAL := State(None, map[], map[], None, None, 0, [], map[], 1, None)

  const UNAUTHORIZED := 4001

  const BACKOFF_SEQUENCE: seq<nat> := [1000, 2000, 4000, 8000, 16000, 30000]

  function NextBackoff(attempts: nat): nat {
    var last := |BACKOFF_SEQUENCE| - 1;
    BACKOFF_SEQUENCE[if attempts < last then attempts else last]
  }

  // The table is exponential backoff capped at 30 s, for every number of attempts.
  lemma BackoffIsCappedExponential(attempts: nat)
    ensures NextBackoff(attempts) == if 1000 * Pow2(attempts) < 30000 then 1000 * Pow2(attempts) else 30000
  {
    if attempts >= 5 {
      Pow2Grows(attempts);
    } else {
      assert Pow2(attempts) == [1, 2, 4, 8, 16][attempts] by {
        assert Pow2(0) == 1 && Pow2(1) == 2 && Pow2(2) == 4 && Pow2(3) == 8 && Pow2(4) == 16;
      }
    }
  }

  // The sum of the counts; `pick` order does not matter (TotalRemove).
  ghost function Total(counts: map<string, int>): int {
    if counts == map[] then 0 else
    var k :| k in counts;
    counts[k] + Total(counts - {k})
  }

  lemma {:induction false} TotalRemove(counts: map<string, int>, k: string)
    requires k in counts
    ensures Total(counts) == counts[k] + Total(counts - {k})
    decreases |counts|
  {
    var p :| p in counts && Total(counts) == counts[p] + Total(counts - {p});
    if p != k {
      TotalRemove(counts - {p}, k);
      TotalRemove(counts - {k}, p);
      assert counts - {p} - {k} == counts - {k} - {p};
    }
  }

  lemma {:induction false} TotalZeroIffEmpty(counts: map<string, int>)
    requires forall k :: k in counts ==> counts[k] >= 1
    ensures Total(counts) >= 0 && (Total(counts) == 0 <==> counts == map[])
    decreases |counts|
  {
    if counts != map[] {
      var p :| p in counts && Total(counts) == counts[p] + Total(counts - {p});
      TotalZeroIffEmpty(counts - {p});
    }
  }

  // ---------------------------------------------------------------------------
  // Transitions
  // ---------------------------------------------------------------------------

  ghost function CancelIdle(s: State): State {
    if s.idleTimer.Some? then s.(pending := s.pending - {s.idleTimer.value}, idleTimer := None) else s
  }

  ghost function ScheduleIdle(s: State): State {
    var c := CancelIdle(s);
    c.(idleTimer := Some(c.nextTimer), pending := c.pending[c.nextTimer := Idle], nextTimer := c.nextTimer + 1)
  }

  ghost function Send(s: State, m: Message): State {
    if s.HoldsReady(Open) then
      var k := s.sockets[s.ws.value];
      s.(sockets := s.sockets[s.ws.value := k.(sent := k.sent + [m])])
    else s
  }

  function Positive(counts: map<string, int>): set<string> {
    set k | k in counts && counts[k] > 0
  }

  ghost function ResubscribeAll(s: State): State {
    var symbols := Positive(s.counts);
    if symbols != {} then Send(s, Subscribe(symbols)) else s
  }

  ghost function ScheduleReconnect(s: State): State {
    if s.reconnectTimer.Some? then s else
    s.(reconnectTimer := Some(s.nextTimer),
       pending := s.pending[s.nextTimer := Reconnect(NextBackoff(s.attempts))],
       nextTimer := s.nextTimer + 1,
       attempts := s.attempts + 1)
  }

  ghost function Connect(s: State, o: Outcome): State {
    if s.HoldsReady(Open) || s.HoldsReady(Connecting) then s
    else if o.Connects? then s.(ws := Some(|s.sockets|), sockets := s.sockets + [Socket(Connecting, [])])
    else ScheduleReconnect(s)
  }

  ghost function SetReady(s: State, id: nat, r: Ready): State
    requires id < |s.sockets|
  {
    s.(sockets := s.sockets[id := s.sockets[id].(ready := r)])
  }

  ghost function CloseConnection(s: State): State {
    var t := if s.reconnectTimer.Some?
             then s.(pending := s.pending - {s.reconnectTimer.value}, reconnectTimer := None) else s;
    var u := if t.HoldsReady(Open) || t.HoldsReady(Connecting) then SetReady(t, t.ws.value, Closing) else t;
    u.(ws := None, attempts := 0)
  }

  ghost function ListenersOf(s: State, sym: string): set<nat> {
    if sym in s.listeners then s.listeners[sym] else {}
  }

  ghost function CountOf(s: State, sym: string): int {
    if sym in s.counts then s.counts[sym] else 0
  }

  // The state in which subscribe() calls cancelIdle().
  ghost function AddOne(s: State, sym: string, l: nat): State {
    s.(listeners := s.listeners[sym := ListenersOf(s, sym) + {l}], counts := s.counts[sym := CountOf(s, sym) + 1])
  }

  ghost function SubscribeCall(s: State, symbol: string, listener: nat, o: Outcome): State {
    var sym := Normalise(symbol);
    var prev := CountOf(s, sym);
    var c := Connect(CancelIdle(AddOne(s, sym, listener)), o);
    if prev == 0 then Send(c, Subscribe({sym})) else c
  }

  // The tables after one listener left, before an empty symbol is dropped.
  ghost function RemoveOne(s: State, sym: string, listener: nat): State {
    var next := if CountOf(s, sym) - 1 > 0 then CountOf(s, sym) - 1 else 0;
    s.(listeners := if sym in s.listeners then s.listeners[sym := s.listeners[sym] - {listener}] else s.listeners,
       counts := s.counts[sym := next])
  }

  ghost function DropSymbol(s: State, sym: string): State {
    var d := Send(s, Unsubscribe(sym));
    d.(counts := d.counts - {sym}, listeners := d.listeners - {sym})
  }

  ghost function UnsubscribeCall(s: State, symbol: string, listener: nat): State {
    var sym := Normalise(symbol);
    var r := RemoveOne(s, sym, listener);
    var a := if r.counts[sym] == 0 then DropSymbol(r, sym) else r;
    if Total(a.counts) == 0 then ScheduleIdle(a) else a
  }

  ghost function SocketOpened(s: State, id: nat): State
    requires id < |s.sockets|
  {
    ResubscribeAll(SetReady(s, id, Open).(attempts := 0))
  }

  // onclose clears `ws` whichever socket it belongs to.
  ghost function SocketClosed(s: State, id: nat, code: int): State
    requires id < |s.sockets|
  {
    var c := SetReady(s, id, Closed).(ws := None, lastClose := Some(code));
    if code == UNAUTHORIZED then c
    else if Total(c.counts) > 0 then ScheduleReconnect(c)
    else c
  }

  ghost function TimerFired(s: State, id: nat, o: Outcome): State
    requires id in s.pending
  {
    var f := s.(pending := s.pending - {id});
    match s.pending[id]
    case Idle => if Total(f.counts) == 0 then CloseConnection(f) else f
    case Reconnect(_) => Connect(f.(reconnectTimer := None), o)
  }

  // Closing(id): the peer or the network starts closing a socket; its close event follows later.
  datatype Event =
    | SubscribeEvent(symbol: string, listener: nat, outcome: Outcome)
    | UnsubscribeEvent(symbol: string, listener: nat)
    | OpenEvent(id: nat)
    | ClosingEvent(id: nat)
    | CloseEvent(id: nat, code: int)
    | PingEvent(id: nat)
    | TimerEvent(id: nat, outcome: Outcome)

  predicate Enabled(s: State, e: Event) {
    match e
    case SubscribeEvent(_, _, _) => true
    case UnsubscribeEvent(_, _) => true
    case OpenEvent(id) => id < |s.sockets| && s.sockets[id].ready == Connecting
    case ClosingEvent(id) => id < |s.sockets| && (s.sockets[id].ready == Connecting || s.sockets[id].ready == Open)
    case CloseEvent(id, _) => id < |s.sockets| && s.sockets[id].ready != Closed
    case PingEvent(id) => id < |s.sockets| && s.sockets[id].ready == Open
    case TimerEvent(id, _) => id in s.pending
  }

  ghost function Next(s: State, e: Event): State
    requires Enabled(s, e)
  {
    match e
    case SubscribeEvent(symbol, l, o) => SubscribeCall(s, symbol, l, o)
    case UnsubscribeEvent(symbol, l) => UnsubscribeCall(s, symbol, l)
    case OpenEvent(id) => SocketOpened(s, id)
    case ClosingEvent(id) => SetReady(s, id, Closing)
    case CloseEvent(id, code) => SocketClosed(s, id, code)
    case PingEvent(_) => Send(s, Pong)
    case TimerEvent(id, o) => TimerFired(s, id, o)
  }

  // ss is the sequence of states that the events es lead through.
  ghost predicate Run(es: seq<Event>, ss: seq<State>) {
    && |ss| == |es| + 1
    && ss[0] == INITIAL
    && forall i :: 0 <= i < |es| ==> Enabled(ss[i], es[i]) && ss[i + 1] == Next(ss[i], es[i])
  }

  // ---------------------------------------------------------------------------
  // What the server believes
  // ---------------------------------------------------------------------------

  function Apply(subscribed: set<string>, m: Message): set<string> {
    match m
    case Subscribe(symbols) => subscribed + symbols
    case Unsubscribe(symbol) => subscribed - {symbol}
    case Pong => subscribed
  }

  // The subscriptions a server ends up with after the messages sent on one socket.
  function Replay(sent: seq<Message>): set<string> {
    if sent == [] then {} else Apply(Replay(sent[..|sent| - 1]), sent[|sent| - 1])
  }

  // ---------------------------------------------------------------------------
  // The invariant
  // ---------------------------------------------------------------------------

  ghost predicate Tables(s: State) {
    && s.counts.Keys == s.listeners.Keys
    && forall k :: k in s.counts ==> s.counts[k] >= 1
  }

  // Each handle names at most one pending timer, and no timer is pending without its handle.
  ghost predicate Timers(s: State) {
    && (s.reconnectTimer.Some? ==> s.reconnectTimer.value in s.pending && s.pending[s.reconnectTimer.value].Reconnect?)
    && (s.idleTimer.Some? && s.idleTimer.value in s.pending ==> s.pending[s.idleTimer.value].Idle?)
    && (forall t :: t in s.pending ==>
          && t < s.nextTimer
          && (if s.pending[t].Idle? then s.idleTimer == Some(t) else s.reconnectTimer == Some(t)))
    && (s.idleTimer.Some? ==> s.idleTimer.value < s.nextTimer)
  }

  ghost predicate Sockets(s: State) {
    && (s.ws.Some? ==> s.ws.value < |s.sockets|)
    && (forall i :: 0 <= i < |s.sockets| && s.sockets[i].ready == Connecting ==> s.sockets[i].sent == [])
  }

  // What the server behind the current socket was told, while that socket is open.
  ghost function ServerSet(s: State): set<string> {
    if s.HoldsReady(Open) then Replay(s.sockets[s.ws.value].sent) else {}
  }

  // Replaying what was sent on the open current socket gives the subscribed symbols.
  ghost predicate ServerAgrees(s: State) {
    s.HoldsReady(Open) ==> ServerSet(s) == s.counts.Keys
  }

  ghost predicate IdleArmed(s: State) {
    s.idleTimer.Some? && s.idleTimer.value in s.pending
  }

  ghost predicate NotStranded(s: State) {
    s.counts != map[] ==> s.ws.Some? || s.reconnectTimer.Some? || s.lastClose == Some(UNAUTHORIZED)
  }

  ghost predicate NotLeaking(s: State) {
    && (s.counts == map[] && (s.ws.Some? || s.reconnectTimer.Some?) ==> IdleArmed(s))
    && (IdleArmed(s) ==> s.counts == map[])
  }

  ghost predicate Inv(s: State) {
    Tables(s) && Timers(s) && Sockets(s) && ServerAgrees(s) && NotStranded(s) && NotLeaking(s)
  }

  lemma InvIntro(s: State)
    requires Tables(s) && Timers(s) && Sockets(s) && ServerAgrees(s) && NotStranded(s) && NotLeaking(s)
    ensures Inv(s)
  {
  }

  // ---------------------------------------------------------------------------
  // Preservation, one helper at a time
  // ---------------------------------------------------------------------------

  lemma SendEffect(s: State, m: Message)
    requires Sockets(s)
    ensures var n := Send(s, m);
            && Sockets(n) && n == s.(sockets := n.sockets) && |n.sockets| == |s.sockets|
            && (forall i :: 0 <= i < |s.sockets| ==> n.sockets[i].ready == s.sockets[i].ready)
            && (n.HoldsReady(Open) <==> s.HoldsReady(Open))
            && (s.HoldsReady(Open) ==> ServerSet(n) == Apply(ServerSet(s), m))
  {
    if s.HoldsReady(Open) {
      var before := s.sockets[s.ws.value].sent;
      assert (before + [m])[..|before + [m]| - 1] == before;
    }
  }

  lemma CancelIdleEffect(s: State)
    requires Timers(s)
    ensures var n := CancelIdle(s); Timers(n) && !IdleArmed(n) && n == s.(idleTimer := None, pending := n.pending)
  {
  }

  lemma ConnectEffect(s: State, o: Outcome)
    requires Timers(s) && Sockets(s)
    ensures var n := Connect(s, o);
            && Timers(n) && Sockets(n) && n.lastClose == s.lastClose
            && n.counts == s.counts && n.listeners == s.listeners
            && (IdleArmed(n) <==> IdleArmed(s))
            && (n.ws.Some? || n.reconnectTimer.Some?)
            && (n.HoldsReady(Open) <==> s.HoldsReady(Open)) && ServerSet(n) == ServerSet(s)
  {
    hide Replay;
  }

  // The two tables after each call, and that nothing else touches them.
  lemma SubscribeTables(s: State, symbol: string, l: nat, o: Outcome)
    ensures var n, sym := SubscribeCall(s, symbol, l, o), Normalise(symbol);
            && n.counts == s.counts[sym := CountOf(s, sym) + 1]
            && n.listeners == s.listeners[sym := ListenersOf(s, sym) + {l}]
  {
    hide Normalise;
  }

  lemma UnsubscribeTables(s: State, symbol: string, l: nat)
    requires Tables(s)
    ensures var n, sym := UnsubscribeCall(s, symbol, l), Normalise(symbol);
            if CountOf(s, sym) <= 1
            then n.counts == s.counts - {sym} && n.listeners == s.listeners - {sym}
            else && n.counts == s.counts[sym := CountOf(s, sym) - 1]
                 && n.listeners == s.listeners[sym := s.listeners[sym] - {l}]
  {
    hide Normalise, Total;
    var sym := Normalise(symbol);
    var r := RemoveOne(s, sym, l);
    var d := DropSymbol(r, sym);
    assert d.counts == s.counts - {sym} && d.listeners == s.listeners - {sym};
    hide Send, RemoveOne, DropSymbol;
    assert UnsubscribeCall(s, symbol, l).counts == (if r.counts[sym] == 0 then d else r).counts;
    assert UnsubscribeCall(s, symbol, l).listeners == (if r.counts[sym] == 0 then d else r).listeners;
  }

  lemma OtherTables(s: State, e: Event)
    requires Enabled(s, e) && !e.SubscribeEvent? && !e.UnsubscribeEvent?
    ensures Next(s, e).counts == s.counts && Next(s, e).listeners == s.listeners
  {
  }

  lemma AddOneEffect(s: State, sym: string, l: nat)
    requires Inv(s)
    ensures var a := AddOne(s, sym, l);
            && Tables(a) && Timers(a) && Sockets(a) && a.counts.Keys == s.counts.Keys + {sym}
            && (a.HoldsReady(Open) <==> s.HoldsReady(Open)) && ServerSet(a) == ServerSet(s)
  {
    hide Replay;
  }

  lemma SubscribePreserves(s: State, symbol: string, l: nat, o: Outcome)
    requires Inv(s)
    ensures Inv(SubscribeCall(s, symbol, l, o))
  {
    hide Normalise;
    var sym := Normalise(symbol);
    var a := AddOne(s, sym, l);
    AddOneEffect(s, sym, l);
    var b := CancelIdle(a);
    CancelIdleEffect(a);
    assert b.HoldsReady(Open) <==> a.HoldsReady(Open);
    assert ServerSet(b) == ServerSet(a);
    var c := Connect(b, o);
    assert Sockets(b);
    ConnectEffect(b, o);
    SendEffect(c, Subscribe({sym}));
    var n := if CountOf(s, sym) == 0 then Send(c, Subscribe({sym})) else c;
    assert SubscribeCall(s, symbol, l, o) == n;
    SubscribedInv(s, c, n, sym);
  }

  lemma SubscribedInv(s: State, c: State, n: State, sym: string)
    requires Inv(s) && Timers(c) && Sockets(c) && Tables(c) && !IdleArmed(c) && (c.ws.Some? || c.reconnectTimer.Some?)
    requires c.counts.Keys == s.counts.Keys + {sym}
    requires (c.HoldsReady(Open) <==> s.HoldsReady(Open)) && ServerSet(c) == ServerSet(s)
    requires n == if CountOf(s, sym) == 0 then Send(c, Subscribe({sym})) else c
    ensures Inv(n)
  {
    SendEffect(c, Subscribe({sym}));
    hide Send, ServerSet;
    assert sym in n.counts;
    assert CountOf(s, sym) == 0 <==> sym !in s.counts;
  }

  // DropSymbol keeps the timers and sockets and tells the server.
  lemma DropEffect(r: State, sym: string)
    requires Timers(r) && Sockets(r)
    ensures var d := DropSymbol(r, sym);
            && Timers(d) && Sockets(d) && d == r.(sockets := d.sockets, counts := r.counts - {sym}, listeners := r.listeners - {sym})
            && (d.HoldsReady(Open) <==> r.HoldsReady(Open))
            && (r.HoldsReady(Open) ==> ServerSet(d) == ServerSet(r) - {sym})
  {
    SendEffect(r, Unsubscribe(sym));
    assert ServerSet(DropSymbol(r, sym)) == ServerSet(Send(r, Unsubscribe(sym)));
    hide Send, ServerSet;
  }

  lemma ScheduleIdleEffect(a: State)
    requires Timers(a)
    ensures var n := ScheduleIdle(a);
            Timers(n) && IdleArmed(n) && n == a.(idleTimer := n.idleTimer, pending := n.pending, nextTimer := n.nextTimer)
  {
  }

  lemma UnsubscribePreserves(s: State, symbol: string, l: nat)
    requires Inv(s)
    ensures Inv(UnsubscribeCall(s, symbol, l))
  {
    hide Normalise, Replay;
    var sym := Normalise(symbol);
    var r := RemoveOne(s, sym, l);
    assert Timers(r) && Sockets(r) && ServerSet(r) == ServerSet(s);
    DropEffect(r, sym);
    var a := if r.counts[sym] == 0 then DropSymbol(r, sym) else r;
    hide ServerSet, DropSymbol;
    assert Tables(a);
    assert s.counts == map[] ==> a.counts == map[];
    TotalZeroIffEmpty(a.counts);
    ScheduleIdleEffect(a);
    assert UnsubscribeCall(s, symbol, l) == if Total(a.counts) == 0 then ScheduleIdle(a) else a;
    hide RemoveOne, ScheduleIdle, Total;
    UnsubscribedInv(s, a);
  }

  // An unsubscribe without its last step, the idle timer, which is due when nothing is left.
  lemma UnsubscribedInv(s: State, a: State)
    requires Inv(s) && Tables(a) && Timers(a) && Sockets(a) && ServerAgrees(a)
    requires a.ws == s.ws && a.reconnectTimer == s.reconnectTimer && a.lastClose == s.lastClose
    requires a.idleTimer == s.idleTimer && a.pending == s.pending
    requires s.counts == map[] ==> a.counts == map[]
    ensures a.counts != map[] ==> Inv(a)
    ensures a.counts == map[] ==> Inv(ScheduleIdle(a))
  {
    ScheduleIdleEffect(a);
    assert a.counts == map[] ==> ServerAgrees(ScheduleIdle(a));
    hide ServerSet;
  }

  lemma OpenEffect(s: State, id: nat)
    requires Inv(s) && Enabled(s, OpenEvent(id))
    ensures var a := SetReady(s, id, Open).(attempts := 0);
            Tables(a) && Timers(a) && Sockets(a) && NotStranded(a) && NotLeaking(a) && ServerSet(a) <= a.counts.Keys
  {
    assert Replay(s.sockets[id].sent) == {};
    hide Replay, Total;
  }

  lemma OpenPreserves(s: State, id: nat)
    requires Inv(s) && Enabled(s, OpenEvent(id))
    ensures Inv(SocketOpened(s, id))
  {
    OpenEffect(s, id);
    var a := SetReady(s, id, Open).(attempts := 0);
    hide SetReady, Inv;
    assert Positive(a.counts) == a.counts.Keys;
    SendEffect(a, Subscribe(Positive(a.counts)));
    hide ServerSet, Send, Positive;
    var n := SocketOpened(s, id);
    assert n == a.(sockets := n.sockets) && Sockets(n);
    assert ServerAgrees(n);
    InvIntro(n);
  }

  lemma ClosePreserves(s: State, id: nat, code: int)
    requires Inv(s) && Enabled(s, CloseEvent(id, code))
    ensures Inv(SocketClosed(s, id, code))
  {
    TotalZeroIffEmpty(s.counts);
    var c := SetReady(s, id, Closed).(ws := None, lastClose := Some(code));
    assert Tables(c) && Timers(c) && Sockets(c) && ServerAgrees(c) && NotLeaking(c);
  }

  lemma TimerPreserves(s: State, id: nat, o: Outcome)
    requires Inv(s) && Enabled(s, TimerEvent(id, o))
    ensures Inv(TimerFired(s, id, o))
  {
    TotalZeroIffEmpty(s.counts);
    hide Replay, Total;
    if s.pending[id].Idle? {
      IdleFirePreserves(s, id);
    } else {
      var g := s.(pending := s.pending - {id}, reconnectTimer := None);
      assert Timers(g) && Sockets(g);
      ConnectEffect(g, o);
      assert IdleArmed(g) <==> IdleArmed(s);
      hide Connect;
      assert TimerFired(s, id, o) == Connect(g, o);
    }
  }

  lemma IdleFirePreserves(s: State, id: nat)
    requires Inv(s) && id in s.pending && s.pending[id].Idle?
    ensures Inv(CloseConnection(s.(pending := s.pending - {id})))
  {
    hide Replay, Total;
    assert s.counts == map[];
  }

  lemma ClosingPreserves(s: State, id: nat)
    requires Inv(s) && Enabled(s, ClosingEvent(id))
    ensures Inv(SetReady(s, id, Closing))
  {
    hide Replay, Total;
  }

  lemma PingPreserves(s: State)
    requires Inv(s)
    ensures Inv(Send(s, Pong))
  {
    SendEffect(s, Pong);
    hide Send, Replay, Total;
  }

  lemma StepPreserves(s: State, e: Event)
    requires Inv(s) && Enabled(s, e)
    ensures Inv(Next(s, e))
  {
    hide Inv, SubscribeCall, UnsubscribeCall, SocketOpened, SocketClosed, TimerFired, SetReady, Send;
    match e
    case SubscribeEvent(symbol, l, o) => SubscribePreserves(s, symbol, l, o);
    case UnsubscribeEvent(symbol, l) => UnsubscribePreserves(s, symbol, l);
    case OpenEvent(id) => OpenPreserves(s, id);
    case ClosingEvent(id) => ClosingPreserves(s, id);
    case CloseEvent(id, code) => ClosePreserves(s, id, code);
    case PingEvent(id) => PingPreserves(s);
    case TimerEvent(id, o) => TimerPreserves(s, id, o);
  }

  lemma {:induction false} RunKeepsInv(es: seq<Event>, ss: seq<State>, n: nat)
    requires Run(es, ss) && n < |ss|
    ensures Inv(ss[n])
  {
    if n > 0 {
      RunKeepsInv(es, ss, n - 1);
      StepPreserves(ss[n - 1], es[n - 1]);
    }
  }
}

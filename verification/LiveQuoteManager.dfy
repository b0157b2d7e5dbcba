// The manager itself: module-level variables become fields, every function a method that
// updates them in place.  `sockets`, `pending` and `nextTimer` are the browser's side.
module LiveQuoteManager {
  import opened Options
  import opened Text
  import opened LiveQuoteProtocol
  import LiveQuoteTheorems

  class Manager {
    var ws: Option<nat>
    var listeners: map<string, set<nat>>
    var counts: map<string, int>
    var reconnectTimer: Option<nat>
    var idleTimer: Option<nat>
    var attempts: nat
    var sockets: seq<Socket>
    var pending: map<nat, Timer>
    var nextTimer: nat
    var lastClose: Option<int>

    ghost function Abs(): State
      reads this
    {
      State(ws, listeners, counts, reconnectTimer, idleTimer, attempts, sockets, pending, nextTimer, lastClose)
    }

    ghost predicate Valid()
      reads this
    {
      Inv(Abs())
    }

    constructor ()
      ensures Valid() && Abs() == INITIAL
    {
      ws, reconnectTimer, idleTimer, lastClose := None, None, None, None;
      listeners, counts, pending := map[], map[], map[];
      attempts, sockets, nextTimer := 0, [], 1;
    }

    method CancelIdleTimer()
      modifies this
      ensures Abs() == CancelIdle(old(Abs()))
    {
      if idleTimer.Some? {
        pending := pending - {idleTimer.value};
        idleTimer := None;
      }
    }

    method ScheduleIdleTimer()
      modifies this
      ensures Abs() == ScheduleIdle(old(Abs()))
    {
      CancelIdleTimer();
      idleTimer := Some(nextTimer);
      pending := pending[nextTimer := Idle];
      nextTimer := nextTimer + 1;
    }

    method TotalSubscribed() returns (total: int)
      ensures total == Total(counts)
      ensures (forall k :: k in counts ==> counts[k] >= 1) ==> (total == 0 <==> counts == map[])
    {
      total := 0;
      var rest := counts;
      while rest != map[]
        invariant Total(counts) == total + Total(rest)
        decreases |rest|
      {
        var k :| k in rest;
        TotalRemove(rest, k);
        total := total + rest[k];
        rest := rest - {k};
      }
      if forall k :: k in counts ==> counts[k] >= 1 {
        TotalZeroIffEmpty(counts);
      }
    }

    method SendJson(m: Message)
      modifies this
      ensures Abs() == Send(old(Abs()), m)
    {
      if ws.Some? && ws.value < |sockets| && sockets[ws.value].ready == Open {
        var k := sockets[ws.value];
        sockets := sockets[ws.value := k.(sent := k.sent + [m])];
      }
    }

    method ResubscribeEverything()
      modifies this
      ensures Abs() == ResubscribeAll(old(Abs()))
    {
      var symbols := Positive(counts);
      if |symbols| > 0 {
        SendJson(Subscribe(symbols));
      }
    }

    method ScheduleReconnectTimer()
      modifies this
      ensures Abs() == ScheduleReconnect(old(Abs()))
    {
      if reconnectTimer.Some? {
        return;
      }
      var delay := NextBackoff(attempts);
      attempts := attempts + 1;
      reconnectTimer := Some(nextTimer);
      pending := pending[nextTimer := Reconnect(delay)];
      nextTimer := nextTimer + 1;
    }

    method ConnectSocket(outcome: Outcome)
      modifies this
      ensures Abs() == Connect(old(Abs()), outcome)
    {
      if ws.Some? && ws.value < |sockets| &&
         (sockets[ws.value].ready == Open || sockets[ws.value].ready == Connecting)
      {
        return;
      }
      if outcome == Connects {
        ws := Some(|sockets|);
        sockets := sockets + [Socket(Connecting, [])];
      } else {
        ScheduleReconnectTimer();
      }
    }

    method CloseSocket()
      modifies this
      ensures Abs() == CloseConnection(old(Abs()))
    {
      if reconnectTimer.Some? {
        pending := pending - {reconnectTimer.value};
        reconnectTimer := None;
      }
      if ws.Some? {
        if ws.value < |sockets| &&
           (sockets[ws.value].ready == Open || sockets[ws.value].ready == Connecting)
        {
          sockets := sockets[ws.value := sockets[ws.value].(ready := Closing)];
        }
        ws := None;
      }
      attempts := 0;
    }

    // ---- events -------------------------------------------------------------

    method OnOpen(id: nat)
      requires Valid() && Enabled(Abs(), OpenEvent(id))
      modifies this
      ensures Valid() && Abs() == Next(old(Abs()), OpenEvent(id))
    {
      OpenPreserves(Abs(), id);
      hide Inv;
      sockets := sockets[id := sockets[id].(ready := Open)];
      attempts := 0;
      ResubscribeEverything();
    }

    method OnClose(id: nat, code: int)
      requires Valid() && Enabled(Abs(), CloseEvent(id, code))
      modifies this
      ensures Valid() && Abs() == Next(old(Abs()), CloseEvent(id, code))
    {
      ClosePreserves(Abs(), id, code);
      hide Inv;
      sockets := sockets[id := sockets[id].(ready := Closed)];
      ws := None;
      lastClose := Some(code);
      if code == UNAUTHORIZED {
        return;
      }
      var total := TotalSubscribed();
      if total > 0 {
        ScheduleReconnectTimer();
      }
    }

    // A pending timer goes off; its callback runs.
    method OnTimer(id: nat, outcome: Outcome)
      requires Valid() && Enabled(Abs(), TimerEvent(id, outcome))
      modifies this
      ensures Valid() && Abs() == Next(old(Abs()), TimerEvent(id, outcome))
    {
      TimerPreserves(Abs(), id, outcome);
      hide Inv;
      var timer := pending[id];
      pending := pending - {id};
      match timer
      case Idle =>
        var total := TotalSubscribed();
        if total == 0 {
          CloseSocket();
        }
      case Reconnect(_) =>
        reconnectTimer := None;
        ConnectSocket(outcome);
    }

    method OnPing()
      requires Valid()
      modifies this
      ensures Valid() && Abs() == Send(old(Abs()), Pong)
    {
      SendEffect(Abs(), Pong);
      SendJson(Pong);
    }

    // Calls the listeners registered for the tick's symbol, each once, in some order.
    method OnTick(symbol: string) returns (called: seq<nat>)
      ensures multiset(called) == multiset(LiveQuoteTheorems.TickReceivers(Abs(), symbol))
    {
      called := [];
      var sym := Normalise(symbol);
      if sym in listeners {
        var rest := listeners[sym];
        while rest != {}
          invariant multiset(called) + multiset(rest) == multiset(listeners[sym])
          decreases rest
        {
          var l :| l in rest;
          called := called + [l];
          rest := rest - {l};
        }
      }
    }

    // ---- public API -----------------------------------------------------------

    method AddListener(symbol: string, listener: nat, outcome: Outcome)
      requires Valid()
      modifies this
      ensures Valid() && Abs() == Next(old(Abs()), SubscribeEvent(symbol, listener, outcome))
    {
      SubscribePreserves(Abs(), symbol, listener, outcome);
      ghost var before := Abs();
      hide Inv, Normalise, CancelIdle, Connect, Send;
      var sym := Normalise(symbol);
      var group := if sym in listeners then listeners[sym] else {};
      listeners := listeners[sym := group + {listener}];
      var prev := if sym in counts then counts[sym] else 0;
      counts := counts[sym := prev + 1];
      assert Abs() == AddOne(before, sym, listener);
      assert prev == CountOf(before, sym);
      hide AddOne, CountOf;
      CancelIdleTimer();
      ConnectSocket(outcome);
      if prev == 0 {
        SendJson(Subscribe({sym}));
      }
    }

    method RemoveListener(symbol: string, listener: nat)
      requires Valid()
      modifies this
      ensures Valid() && Abs() == Next(old(Abs()), UnsubscribeEvent(symbol, listener))
    {
      UnsubscribePreserves(Abs(), symbol, listener);
      hide Inv, Normalise, ScheduleIdle, Send;
      ghost var before := Abs();
      var sym := Normalise(symbol);
      if sym in listeners {
        listeners := listeners[sym := listeners[sym] - {listener}];
      }
      var prev := if sym in counts then counts[sym] else 0;
      var next := if prev - 1 > 0 then prev - 1 else 0;
      counts := counts[sym := next];
      assert Abs() == RemoveOne(before, sym, listener);
      if next == 0 {
        SendJson(Unsubscribe(sym));
        counts := counts - {sym};
        listeners := listeners - {sym};
      }
      var total := TotalSubscribed();
      if total == 0 {
        ScheduleIdleTimer();
      }
    }
  }
}

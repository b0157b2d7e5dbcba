// openRunStream as an object: its closure variables are fields, its handlers methods.
// `sockets`, `pending`, `nextTimer` and `polls` are the browser's side; `waits` and `calls` record
// the delays asked for and the callbacks made.
module RunStreamClient {
  import opened Options
  import opened Powers
  import opened RunFold
  import opened RunStream

  class Stream {
    const maxBackoffMs: nat
    var ws: Option<nat>
    var pollTimer: Option<nat>
    var reconnectTimer: Option<nat>
    var reconnectAttempts: nat
    var manuallyClosed: bool
    var runIsTerminal: bool
    var sockets: seq<Socket>
    var pending: map<nat, Timer>
    var nextTimer: nat
    var polls: nat
    var waits: seq<nat>
    var calls: seq<Callback>

    ghost function Abs(): State
      reads this
    {
      State(ws, pollTimer, reconnectTimer, reconnectAttempts, manuallyClosed, runIsTerminal,
            sockets, pending, nextTimer, polls, waits, calls)
    }

    ghost predicate Valid()
      reads this
    {
      Inv(Abs(), maxBackoffMs)
    }

    constructor (maxBackoffMs: nat, first: Outcome)
      ensures Valid() && this.maxBackoffMs == maxBackoffMs
      ensures Abs() == Connect(FRESH, first, maxBackoffMs)
    {
      this.maxBackoffMs := maxBackoffMs;
      ws, pollTimer, reconnectTimer := None, None, None;
      reconnectAttempts, polls, nextTimer := 0, 0, 1;
      manuallyClosed, runIsTerminal := false, false;
      sockets, pending, waits, calls := [], map[], [], [];
      new;
      StartPreserves(first, maxBackoffMs);
      ConnectSocket(first);
    }

    method Notify(c: Callback)
      modifies this
      ensures Abs() == Call(old(Abs()), c)
    {
      calls := calls + [c];
    }

    method StopPoll()
      modifies this
      ensures Abs() == StopPolling(old(Abs()))
    {
      if pollTimer.Some? {
        pending := pending - {pollTimer.value};
        pollTimer := None;
      }
    }

    method StartPoll()
      modifies this
      ensures Abs() == StartPolling(old(Abs()))
    {
      if pollTimer.Some? || manuallyClosed || runIsTerminal {
        return;
      }
      pollTimer := Some(nextTimer);
      pending := pending[nextTimer := Poll];
      nextTimer := nextTimer + 1;
    }

    method PowerOfTwo(k: nat) returns (p: nat)
      ensures p == Pow2(k)
    {
      p := 1;
      for i := 0 to k
        invariant p == Pow2(i)
      {
        p := 2 * p;
      }
    }

    method ScheduleRetry()
      modifies this
      ensures Abs() == ScheduleReconnect(old(Abs()), maxBackoffMs)
    {
      if manuallyClosed || runIsTerminal {
        return;
      }
      Notify(OnConnection(AtReconnecting));
      StartPoll();
      var p := PowerOfTwo(reconnectAttempts);
      var backoff := if 1000 * p < maxBackoffMs then 1000 * p else maxBackoffMs;
      reconnectAttempts := reconnectAttempts + 1;
      waits := waits + [backoff];
      reconnectTimer := Some(nextTimer);
      pending := pending[nextTimer := Retry(backoff)];
      nextTimer := nextTimer + 1;
    }

    method ConnectSocket(outcome: Outcome)
      modifies this
      ensures Abs() == Connect(old(Abs()), outcome, maxBackoffMs)
    {
      if manuallyClosed || runIsTerminal {
        return;
      }
      Notify(OnConnection(AtConnecting));
      if outcome == Throws {
        Notify(OnError("connect"));
        ScheduleRetry();
        return;
      }
      ws := Some(|sockets|);
      sockets := sockets + [Socket(Connecting, false)];
    }

    method OnSocketOpen(id: nat)
      requires Valid() && Enabled(Abs(), OpenEvent(id))
      modifies this
      ensures Valid() && Abs() == Next(old(Abs()), OpenEvent(id), maxBackoffMs)
    {
      OpenPreserves(Abs(), id, maxBackoffMs);
      hide Inv, StopPolling;
      sockets := sockets[id := Socket(Open, true)];
      waits := [];
      reconnectAttempts := 0;
      StopPoll();
      Notify(OnConnection(AtOpen));
    }

    method OnSocketMessage(id: nat, frame: Frame)
      requires Valid() && Enabled(Abs(), MessageEvent(id, frame))
      modifies this
      ensures Valid() && Abs() == Next(old(Abs()), MessageEvent(id, frame), maxBackoffMs)
    {
      MessagePreserves(Abs(), id, frame, maxBackoffMs);
      hide Inv;
      match frame
      case SnapshotFrame(run) =>
        Notify(OnSnapshot(run));
        if IsTerminal(run.status) {
          runIsTerminal := true;
        }
      case StepFrame(step) => Notify(OnStepUpdate(step));
      case RunFrame(status, finishedAt, haltReason) =>
        Notify(OnRunUpdate(status, finishedAt, haltReason));
        if IsTerminal(status) {
          runIsTerminal := true;
        }
      case ApprovalFrame(a) => Notify(OnApprovalRequested(a));
      case PingFrame =>
      case OtherFrame(m) => Notify(OnError(m));
    }

    method OnSocketClose(id: nat, code: int)
      requires Valid() && Enabled(Abs(), CloseEvent(id, code))
      modifies this
      ensures Valid() && Abs() == Next(old(Abs()), CloseEvent(id, code), maxBackoffMs)
    {
      ClosePreserves(Abs(), id, code, maxBackoffMs);
      hide Inv, ScheduleReconnect, StopPolling;
      sockets := sockets[id := sockets[id].(phase := Gone)];
      ws := None;
      if code == 1000 {
        runIsTerminal := true;
        StopPoll();
        Notify(OnConnection(AtClosed));
        return;
      }
      ScheduleRetry();
    }

    method RetryFires(id: nat, outcome: Outcome)
      modifies this
      ensures Abs() == Connect(old(Abs()).(pending := old(pending) - {id}), outcome, maxBackoffMs)
    {
      hide Connect;
      pending := pending - {id};
      ConnectSocket(outcome);
    }

    // A timer goes off: an interval starts a getRun call, a retry connects.
    method OnTimer(id: nat, outcome: Outcome)
      requires Valid() && Enabled(Abs(), TimerEvent(id, outcome))
      modifies this
      ensures Valid() && Abs() == Next(old(Abs()), TimerEvent(id, outcome), maxBackoffMs)
    {
      TimerPreserves(Abs(), id, outcome, maxBackoffMs);
      hide Inv;
      match pending[id]
      case Poll => polls := polls + 1;
      case Retry(_) => RetryFires(id, outcome);
    }

    method OnPollResult(result: Option<RunData>)
      requires Valid() && Enabled(Abs(), PollEvent(result))
      modifies this
      ensures Valid() && Abs() == Next(old(Abs()), PollEvent(result), maxBackoffMs)
    {
      PollPreserves(Abs(), result, maxBackoffMs);
      hide Inv;
      polls := polls - 1;
      match result
      case None => Notify(OnError("poll"));
      case Some(run) =>
        Notify(OnSnapshot(run));
        if IsTerminal(run.status) {
          runIsTerminal := true;
          StopPoll();
          Notify(OnConnection(AtClosed));
        }
    }

    method CancelRetryTimer()
      modifies this
      ensures Abs() == CancelRetry(old(Abs()))
    {
      if reconnectTimer.Some? {
        pending := pending - {reconnectTimer.value};
        reconnectTimer := None;
      }
    }

    method LetGoOfSocket()
      modifies this
      ensures Abs() == DropSocket(old(Abs()))
    {
      if ws.Some? {
        if ws.value < |sockets| && sockets[ws.value].phase != Gone {
          sockets := sockets[ws.value := sockets[ws.value].(phase := Closing)];
        }
        ws := None;
      }
    }

    method Close()
      requires Valid()
      modifies this
      ensures Valid() && Abs() == Next(old(Abs()), CallerCloses, maxBackoffMs)
    {
      CallerClosePreserves(Abs(), maxBackoffMs);
      hide Inv, StopPolling, CancelRetry, DropSocket;
      manuallyClosed := true;
      StopPoll();
      CancelRetryTimer();
      LetGoOfSocket();
      Notify(OnConnection(AtClosed));
    }

    method IsOpen() returns (open: bool)
      requires Valid()
      ensures open <==> ws.Some? && sockets[ws.value].phase == Open
      ensures open ==> Connected(Abs()) && pollTimer.None?
    {
      open := ws.Some? && sockets[ws.value].phase == Open;
    }
  }
}

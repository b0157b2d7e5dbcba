// openRunStream: reconnect, poll and terminal states of one run's stream.
module RunStream {
  import opened Options
  import opened Powers
  import opened RunFold

  // `wasOpen` says whether onopen ran; a socket is undead until its close event is delivered.
  datatype Phase = Connecting | Open | Closing | Gone
  datatype Socket = Socket(phase: Phase, wasOpen: bool)

  datatype Timer = Poll | Retry(delay: nat)

  datatype Outcome = Connects | Throws

  // `waits` are the reconnect delays since the last onopen, `polls` the getRun calls in flight,
  // `calls` the callbacks made so far.
  datatype State = State(
    ws: Option<nat>,
    pollTimer: Option<nat>,
    reconnectTimer: Option<nat>,
    attempts: nat,
    manuallyClosed: bool,
    runIsTerminal: bool,
    sockets: seq<Socket>,
    pending: map<nat, Timer>,
    nextTimer: nat,
    polls: nat,
    waits: seq<nat>,
    calls: seq<Callback>)
  {
    predicate Stopped() {
      manuallyClosed || runIsTerminal
    }
  }

  const FRESH := State(None, None, None, 0, false, false, [], map[], 1, 0, [], [])

  // The k-th retry since the last open waits min(1000 * 2^k, max).
  function Backoff(k: nat, max: nat): nat {
    if 1000 * Pow2(k) < max then 1000 * Pow2(k) else max
  }

  function Call(s: State, c: Callback): State {
    s.(calls := s.calls + [c])
  }

  function StopPolling(s: State): State {
    if s.pollTimer.Some? then s.(pending := s.pending - {s.pollTimer.value}, pollTimer := None) else s
  }

  function StartPolling(s: State): State {
    if s.pollTimer.Some? || s.Stopped() then s
    else s.(pollTimer := Some(s.nextTimer), pending := s.pending[s.nextTimer := Poll], nextTimer := s.nextTimer + 1)
  }

  function ScheduleReconnect(s: State, max: nat): State {
    if s.Stopped() then s else
    var p := StartPolling(Call(s, OnConnection(AtReconnecting)));
    var delay := Backoff(p.attempts, max);
    p.(attempts := p.attempts + 1,
       waits := p.waits + [delay],
       reconnectTimer := Some(p.nextTimer),
       pending := p.pending[p.nextTimer := Retry(delay)],
       nextTimer := p.nextTimer + 1)
  }

  function Connect(s: State, o: Outcome, max: nat): State {
    if s.Stopped() then s else
    var c := Call(s, OnConnection(AtConnecting));
    match o
    case Connects => c.(ws := Some(|c.sockets|), sockets := c.sockets + [Socket(Connecting, false)])
    case Throws => ScheduleReconnect(Call(c, OnError("connect")), max)
  }

  function Opened(s: State, id: nat): State
    requires id < |s.sockets|
  {
    var o := s.(sockets := s.sockets[id := Socket(Open, true)], attempts := 0, waits := []);
    Call(StopPolling(o), OnConnection(AtOpen))
  }

  function Closed(s: State, id: nat, code: int, max: nat): State
    requires id < |s.sockets|
  {
    var g := s.(sockets := s.sockets[id := s.sockets[id].(phase := Gone)], ws := None);
    if code == 1000 then Call(StopPolling(g.(runIsTerminal := true)), OnConnection(AtClosed))
    else ScheduleReconnect(g, max)
  }

  // A frame after parsing; anything else becomes an error callback.
  datatype Frame =
    | SnapshotFrame(run: RunData)
    | StepFrame(step: RunStep)
    | RunFrame(status: string, finishedAt: Option<string>, haltReason: Option<string>)
    | ApprovalFrame(approval: Approval)
    | PingFrame
    | OtherFrame(message: string)

  function Dispatch(s: State, f: Frame): State {
    match f
    case SnapshotFrame(run) =>
      Call(s, OnSnapshot(run)).(runIsTerminal := s.runIsTerminal || IsTerminal(run.status))
    case StepFrame(step) => Call(s, OnStepUpdate(step))
    case RunFrame(status, finishedAt, haltReason) =>
      Call(s, OnRunUpdate(status, finishedAt, haltReason))
      .(runIsTerminal := s.runIsTerminal || IsTerminal(status))
    case ApprovalFrame(a) => Call(s, OnApprovalRequested(a))
    case PingFrame => s
    case OtherFrame(m) => Call(s, OnError(m))
  }

  // A getRun call comes back with a run, or fails.
  function PollDone(s: State, result: Option<RunData>): State {
    var d := s.(polls := if s.polls > 0 then s.polls - 1 else 0);
    match result
    case None => Call(d, OnError("poll"))
    case Some(run) =>
      var e := Call(d, OnSnapshot(run));
      if IsTerminal(run.status)
      then Call(StopPolling(e.(runIsTerminal := true)), OnConnection(AtClosed))
      else e
  }

  function TimerFired(s: State, id: nat, o: Outcome, max: nat): State
    requires id in s.pending
  {
    match s.pending[id]
    case Poll => s.(polls := s.polls + 1)
    case Retry(_) => Connect(s.(pending := s.pending - {id}), o, max)
  }

  function CancelRetry(s: State): State {
    if s.reconnectTimer.Some? then s.(pending := s.pending - {s.reconnectTimer.value}, reconnectTimer := None) else s
  }

  function DropSocket(s: State): State {
    var c := if s.ws.Some? && s.ws.value < |s.sockets| && s.sockets[s.ws.value].phase != Gone
             then s.(sockets := s.sockets[s.ws.value := s.sockets[s.ws.value].(phase := Closing)]) else s;
    c.(ws := None)
  }

  function CloseByCaller(s: State): State {
    Call(DropSocket(CancelRetry(StopPolling(s.(manuallyClosed := true)))), OnConnection(AtClosed))
  }

  datatype Event =
    | OpenEvent(id: nat)
    | MessageEvent(id: nat, frame: Frame)
    | ErrorEvent(id: nat)
    | ClosingEvent(id: nat)
    | CloseEvent(id: nat, code: int)
    | TimerEvent(id: nat, outcome: Outcome)
    | PollEvent(result: Option<RunData>)
    | CallerCloses

  predicate Enabled(s: State, e: Event) {
    match e
    case OpenEvent(id) => id < |s.sockets| && s.sockets[id].phase == Connecting
    case MessageEvent(id, _) => id < |s.sockets| && s.sockets[id].phase == Open
    case ErrorEvent(id) => id < |s.sockets| && s.sockets[id].phase != Gone
    case ClosingEvent(id) => id < |s.sockets| && (s.sockets[id].phase == Connecting || s.sockets[id].phase == Open)
    case CloseEvent(id, _) => id < |s.sockets| && s.sockets[id].phase != Gone
    case TimerEvent(id, _) => id in s.pending
    case PollEvent(_) => s.polls > 0
    case CallerCloses => true
  }

  function Next(s: State, e: Event, max: nat): State
    requires Enabled(s, e)
  {
    match e
    case OpenEvent(id) => Opened(s, id)
    case MessageEvent(_, frame) => Dispatch(s, frame)
    case ErrorEvent(_) => Call(s, OnError("socket"))
    case ClosingEvent(id) => s.(sockets := s.sockets[id := s.sockets[id].(phase := Closing)])
    case CloseEvent(id, code) => Closed(s, id, code, max)
    case TimerEvent(id, o) => TimerFired(s, id, o, max)
    case PollEvent(result) => PollDone(s, result)
    case CallerCloses => CloseByCaller(s)
  }

  // A stream is opened by a first connect, and then lives through the events es.
  ghost predicate Run(first: Outcome, max: nat, es: seq<Event>, ss: seq<State>) {
    && |ss| == |es| + 1
    && ss[0] == Connect(FRESH, first, max)
    && forall i :: 0 <= i < |es| ==> Enabled(ss[i], es[i]) && ss[i + 1] == Next(ss[i], es[i], max)
  }

  // ---------------------------------------------------------------------------
  // The invariant
  // ---------------------------------------------------------------------------

  predicate Undead(s: State, id: int) {
    0 <= id < |s.sockets| && s.sockets[id].phase != Gone
  }

  // Only the newest socket can be undead, and it can be held by `ws`.
  ghost predicate OneSocket(s: State) {
    && (forall i :: 0 <= i < |s.sockets| - 1 ==> s.sockets[i].phase == Gone)
    && (s.ws.Some? ==> s.ws.value == |s.sockets| - 1 && Undead(s, s.ws.value))
    && (forall i :: 0 <= i < |s.sockets| && s.sockets[i].phase == Open ==> s.sockets[i].wasOpen)
    && (forall i :: 0 <= i < |s.sockets| && s.sockets[i].phase == Connecting ==> !s.sockets[i].wasOpen)
    && (Undead(s, |s.sockets| - 1) && s.ws == None ==> s.manuallyClosed && s.sockets[|s.sockets| - 1].phase == Closing)
  }

  // The browser's timers are the ones the handles name; a retry waits only while no socket is undead.
  ghost predicate Timers(s: State) {
    && (s.pollTimer.Some? ==> s.pollTimer.value in s.pending && s.pending[s.pollTimer.value].Poll?)
    && (s.reconnectTimer.Some? && s.reconnectTimer.value in s.pending ==> s.pending[s.reconnectTimer.value].Retry?)
    && (s.reconnectTimer.Some? ==> s.reconnectTimer.value < s.nextTimer)
    && (forall t :: t in s.pending ==>
          && t < s.nextTimer
          && (if s.pending[t].Poll? then s.pollTimer == Some(t) else s.reconnectTimer == Some(t)))
    && (Waiting(s) ==> !Undead(s, |s.sockets| - 1))
  }

  ghost predicate Waiting(s: State) {
    exists t :: t in s.pending && s.pending[t].Retry?
  }

  // A socket that opened and has not been reported closed.
  predicate Connected(s: State) {
    Undead(s, |s.sockets| - 1) && s.sockets[|s.sockets| - 1].wasOpen
  }

  predicate FirstConnectPending(s: State) {
    |s.sockets| == 1 && Undead(s, 0) && !s.sockets[0].wasOpen
  }

  ghost predicate KeepsInformed(s: State) {
    && (!s.Stopped() ==> Connected(s) || s.pollTimer.Some? || FirstConnectPending(s))
    && (Connected(s) ==> s.pollTimer.None?)
  }

  ghost predicate BacksOff(s: State, max: nat) {
    && |s.waits| == s.attempts
    && (forall k: nat :: k < |s.waits| ==> s.waits[k] == Backoff(k, max))
    && (forall t :: t in s.pending && s.pending[t].Retry? ==>
          s.attempts > 0 && s.pending[t].delay == s.waits[s.attempts - 1])
  }

  ghost predicate Quiet(s: State) {
    && (s.manuallyClosed ==> s.pending == map[] && s.ws == None)
    && (s.runIsTerminal ==> s.pollTimer.None?)
  }

  ghost predicate Inv(s: State, max: nat) {
    OneSocket(s) && Timers(s) && KeepsInformed(s) && BacksOff(s, max) && Quiet(s)
  }

  lemma StartPreserves(first: Outcome, max: nat)
    ensures Inv(Connect(FRESH, first, max), max)
  {
    if first.Throws? {
      assert !FRESH.Stopped();
    }
  }

  lemma ReconnectPreserves(s: State, max: nat)
    requires OneSocket(s) && Timers(s) && BacksOff(s, max) && Quiet(s)
    requires !Undead(s, |s.sockets| - 1) && !Waiting(s)
    ensures Inv(ScheduleReconnect(s, max), max)
  {
  }

  lemma OpenPreserves(s: State, id: nat, max: nat)
    requires Inv(s, max) && Enabled(s, OpenEvent(id))
    ensures Inv(Opened(s, id), max)
  {
    assert !Waiting(s);
  }

  lemma MessagePreserves(s: State, id: nat, f: Frame, max: nat)
    requires Inv(s, max) && Enabled(s, MessageEvent(id, f))
    ensures Inv(Dispatch(s, f), max)
  {
  }

  lemma ClosingPreserves(s: State, id: nat, max: nat)
    requires Inv(s, max) && Enabled(s, ClosingEvent(id))
    ensures Inv(Next(s, ClosingEvent(id), max), max)
  {
  }

  lemma ClosePreserves(s: State, id: nat, code: int, max: nat)
    requires Inv(s, max) && Enabled(s, CloseEvent(id, code))
    ensures Inv(Closed(s, id, code, max), max)
  {
    var g := s.(sockets := s.sockets[id := s.sockets[id].(phase := Gone)], ws := None);
    assert OneSocket(g) && Timers(g) && BacksOff(g, max) && Quiet(g);
    if code != 1000 {
      ReconnectPreserves(g, max);
    }
  }

  lemma TimerPreserves(s: State, id: nat, o: Outcome, max: nat)
    requires Inv(s, max) && Enabled(s, TimerEvent(id, o))
    ensures Inv(TimerFired(s, id, o, max), max)
  {
    if s.pending[id].Retry? {
      RetryPreserves(s, id, o, max);
    } else {
      assert Waiting(TimerFired(s, id, o, max)) <==> Waiting(s);
    }
  }

  lemma RetryPreserves(s: State, id: nat, o: Outcome, max: nat)
    requires Inv(s, max) && id in s.pending && s.pending[id].Retry?
    ensures Inv(Connect(s.(pending := s.pending - {id}), o, max), max)
  {
    var f := s.(pending := s.pending - {id});
    assert OneSocket(f) && Timers(f) && BacksOff(f, max) && Quiet(f) && KeepsInformed(f) && !Waiting(f);
    assert !Undead(f, |f.sockets| - 1);
    if o.Throws? && !s.Stopped() {
      var g := Call(Call(f, OnConnection(AtConnecting)), OnError("connect"));
      assert !Waiting(g);
      ReconnectPreserves(g, max);
    }
  }

  lemma CallPreserves(s: State, c: Callback, max: nat)
    requires Inv(s, max)
    ensures Inv(Call(s, c), max)
  {
    assert Waiting(Call(s, c)) <==> Waiting(s);
  }

  lemma StopPollingPreserves(s: State, max: nat)
    requires Inv(s, max)
    ensures Inv(StopPolling(s.(runIsTerminal := true)), max)
  {
    var n := StopPolling(s.(runIsTerminal := true));
    assert Waiting(n) ==> Waiting(s);
  }

  lemma PollPreserves(s: State, result: Option<RunData>, max: nat)
    requires Inv(s, max) && Enabled(s, PollEvent(result))
    ensures Inv(PollDone(s, result), max)
  {
    var d := s.(polls := s.polls - 1);
    assert Waiting(d) <==> Waiting(s);
    assert Inv(d, max);
    hide Inv, StopPolling;
    match result
    case None => CallPreserves(d, OnError("poll"), max);
    case Some(run) =>
      CallPreserves(d, OnSnapshot(run), max);
      var e := Call(d, OnSnapshot(run));
      StopPollingPreserves(e, max);
      CallPreserves(StopPolling(e.(runIsTerminal := true)), OnConnection(AtClosed), max);
  }

  lemma DropKeepsOneSocket(s: State)
    requires OneSocket(s) && s.manuallyClosed
    ensures var n := DropSocket(s); OneSocket(n) && n == s.(ws := None, sockets := n.sockets)
  {
  }

  // With every timer cancelled and no socket held, little is left to keep.
  lemma QuietInv(s: State, max: nat)
    requires OneSocket(s) && BacksOff(s, max) && s.manuallyClosed
    requires s.pending == map[] && s.ws == None && s.pollTimer == None && s.reconnectTimer == None
    ensures Inv(s, max)
  {
  }

  lemma CallerClosePreserves(s: State, max: nat)
    requires Inv(s, max)
    ensures Inv(CloseByCaller(s), max)
  {
    var quiet := CancelRetry(StopPolling(s.(manuallyClosed := true)));
    assert quiet == s.(manuallyClosed := true, pending := map[], pollTimer := None, reconnectTimer := None);
    assert OneSocket(quiet) && BacksOff(quiet, max);
    hide CancelRetry, StopPolling, Backoff, Inv;
    DropKeepsOneSocket(quiet);
    var n := CloseByCaller(s);
    assert n == DropSocket(quiet).(calls := n.calls);
    hide DropSocket;
    assert OneSocket(n) && BacksOff(n, max);
    hide OneSocket, BacksOff;
    QuietInv(n, max);
  }

  lemma StepPreserves(s: State, e: Event, max: nat)
    requires Inv(s, max) && Enabled(s, e)
    ensures Inv(Next(s, e, max), max)
  {
    match e
    case OpenEvent(id) => OpenPreserves(s, id, max);
    case MessageEvent(id, frame) => MessagePreserves(s, id, frame, max);
    case ErrorEvent(id) =>
    case ClosingEvent(id) => ClosingPreserves(s, id, max);
    case CloseEvent(id, code) => ClosePreserves(s, id, code, max);
    case TimerEvent(id, o) => TimerPreserves(s, id, o, max);
    case PollEvent(result) => PollPreserves(s, result, max);
    case CallerCloses => CallerClosePreserves(s, max);
  }

  lemma NthStep(first: Outcome, max: nat, es: seq<Event>, ss: seq<State>, k: nat)
    requires Run(first, max, es, ss) && k < |es|
    ensures k + 1 < |ss| && Enabled(ss[k], es[k]) && ss[k + 1] == Next(ss[k], es[k], max)
  {
    hide Next, Enabled;
  }

  lemma {:induction false} RunKeepsInv(first: Outcome, max: nat, es: seq<Event>, ss: seq<State>, n: nat)
    requires Run(first, max, es, ss) && n < |ss|
    ensures Inv(ss[n], max)
  {
    if n == 0 {
      StartPreserves(first, max);
    } else {
      RunKeepsInv(first, max, es, ss, n - 1);
      StepPreserves(ss[n - 1], es[n - 1], max);
    }
  }

  // ---------------------------------------------------------------------------
  // Theorems about every run of a stream
  // ---------------------------------------------------------------------------

  function UndeadSockets(s: State): set<nat> {
    set i | 0 <= i < |s.sockets| && s.sockets[i].phase != Gone
  }

  function PendingRetries(s: State): set<nat> {
    set t | t in s.pending && s.pending[t].Retry?
  }

  lemma AtMostOne<T>(s: set<T>)
    requires forall a, b :: a in s && b in s ==> a == b
    ensures |s| <= 1
  {
    if s != {} {
      var a :| a in s;
      assert s == {a};
    }
  }

  // Sockets not yet reported closed plus waiting retries never exceed one.
  lemma OneConnectionEffort(first: Outcome, max: nat, es: seq<Event>, ss: seq<State>, n: nat)
    requires Run(first, max, es, ss) && n < |ss|
    ensures |UndeadSockets(ss[n])| + |PendingRetries(ss[n])| <= 1
  {
    RunKeepsInv(first, max, es, ss, n);
    var u, p := UndeadSockets(ss[n]), PendingRetries(ss[n]);
    AtMostOne(u);
    AtMostOne(p);
    if p != {} {
      assert Waiting(ss[n]);
      assert u == {};
    }
  }

  predicate OpenNow(s: State) {
    s.sockets != [] && s.sockets[|s.sockets| - 1].phase == Open
  }

  predicate Polling(s: State) {
    s.pollTimer.Some? && s.pollTimer.value in s.pending && s.pending[s.pollTimer.value] == Poll
  }

  // A socket that was open is closing, and its close event is still to come.
  predicate CloseUnreported(s: State) {
    s.sockets != [] && s.sockets[|s.sockets| - 1] == Socket(Closing, true)
  }

  // Until it is stopped the interface is kept informed, by an open socket, by polling or by the very
  // first connect under way, except exactly between the start of a close and its event.
  lemma InformedIff(first: Outcome, max: nat, es: seq<Event>, ss: seq<State>, n: nat)
    requires Run(first, max, es, ss) && n < |ss| && !ss[n].Stopped()
    ensures OpenNow(ss[n]) || Polling(ss[n]) || FirstConnectPending(ss[n]) <==> !CloseUnreported(ss[n])
  {
    RunKeepsInv(first, max, es, ss, n);
    hide Run;
  }

  // The k-th retry since the last open waits min(1000 * 2^k, max), and a waiting retry is the latest.
  lemma RetriesBackOff(first: Outcome, max: nat, es: seq<Event>, ss: seq<State>, n: nat)
    requires Run(first, max, es, ss) && n < |ss|
    ensures forall k :: 0 <= k < |ss[n].waits| ==>
              ss[n].waits[k] == if 1000 * Pow2(k) < max then 1000 * Pow2(k) else max
    ensures forall t :: t in PendingRetries(ss[n]) ==>
              |ss[n].waits| > 0 && ss[n].pending[t].delay == ss[n].waits[|ss[n].waits| - 1]
  {
    RunKeepsInv(first, max, es, ss, n);
  }

  // From s to n no socket was made and no timer started.
  predicate NothingStarted(s: State, n: State) {
    && n.Stopped() && |n.sockets| == |s.sockets| && n.nextTimer == s.nextTimer
    && n.pending.Keys <= s.pending.Keys && (s.manuallyClosed ==> n.manuallyClosed)
  }

  lemma StopIsFinal(s: State, e: Event, max: nat)
    requires Enabled(s, e) && s.Stopped()
    ensures NothingStarted(s, Next(s, e, max))
  {
    match e
    case PollEvent(result) => assert NothingStarted(s, PollDone(s, result));
    case CloseEvent(id, code) => assert NothingStarted(s, Closed(s, id, code, max));
    case TimerEvent(id, o) => assert NothingStarted(s, TimerFired(s, id, o, max));
    case MessageEvent(_, frame) => assert NothingStarted(s, Dispatch(s, frame));
    case CallerCloses => assert NothingStarted(s, CloseByCaller(s));
    case _ =>
  }

  lemma ClosedHasNoTimers(s: State, max: nat)
    requires Inv(s, max) && s.manuallyClosed
    ensures s.pending == map[]
  {
  }

  // Once closed by the caller or terminal, no socket is made and no poll or retry timer started, ever.
  lemma {:induction false} NothingStartsAfterStop(first: Outcome, max: nat, es: seq<Event>, ss: seq<State>, i: nat, j: nat)
    requires Run(first, max, es, ss) && i <= j < |ss| && ss[i].Stopped()
    ensures NothingStarted(ss[i], ss[j])
    ensures ss[i].manuallyClosed ==> ss[j].pending == map[]
  {
    hide Next, Inv, Enabled;
    if i < j {
      NothingStartsAfterStop(first, max, es, ss, i, j - 1);
      StopIsFinal(ss[j - 1], es[j - 1], max);
    }
    RunKeepsInv(first, max, es, ss, j);
    if ss[j].manuallyClosed {
      ClosedHasNoTimers(ss[j], max);
    }
  }

  // ---------------------------------------------------------------------------
  // How quiet a closed stream is
  // ---------------------------------------------------------------------------

  predicate IsData(c: Callback) {
    c.OnSnapshot? || c.OnStepUpdate? || c.OnRunUpdate? || c.OnApprovalRequested?
  }

  function DataCalls(calls: seq<Callback>): nat {
    if calls == [] then 0 else DataCalls(calls[..|calls| - 1]) + if IsData(calls[|calls| - 1]) then 1 else 0
  }

  lemma DataCallsStep(calls: seq<Callback>, c: Callback)
    ensures DataCalls(calls + [c]) == DataCalls(calls) + if IsData(c) then 1 else 0
  {
    assert (calls + [c])[..|calls + [c]| - 1] == calls;
  }

  lemma ClosedStepCalls(s: State, e: Event, max: nat)
    requires Inv(s, max) && Enabled(s, e) && s.manuallyClosed
    ensures var n := Next(s, e, max);
            && n.polls <= s.polls
            && match e
               case PollEvent(Some(run)) =>
                 n.calls == s.calls + [OnSnapshot(run)] ||
                 n.calls == s.calls + [OnSnapshot(run)] + [OnConnection(AtClosed)]
               case PollEvent(None) => n.calls == s.calls + [OnError("poll")]
               case ErrorEvent(_) => n.calls == s.calls + [OnError("socket")]
               case _ => n.calls == s.calls || n.calls == s.calls + [OnConnection(AtClosed)]
  {
    assert !e.MessageEvent? && !e.OpenEvent? && !e.TimerEvent?;
    assert s.pollTimer == None;
  }

  // After close() only a getRun call still in flight delivers data.
  lemma ClosedStepData(s: State, e: Event, max: nat)
    requires Inv(s, max) && Enabled(s, e) && s.manuallyClosed
    ensures DataCalls(Next(s, e, max).calls) == DataCalls(s.calls) + if e.PollEvent? && e.result.Some? then 1 else 0
    ensures Next(s, e, max).polls <= s.polls
  {
    hide Next, Inv, Enabled, DataCalls;
    ClosedStepCalls(s, e, max);
    match e
    case PollEvent(Some(run)) =>
      DataCallsStep(s.calls, OnSnapshot(run));
      DataCallsStep(s.calls + [OnSnapshot(run)], OnConnection(AtClosed));
    case PollEvent(None) => DataCallsStep(s.calls, OnError("poll"));
    case ErrorEvent(_) => DataCallsStep(s.calls, OnError("socket"));
    case _ => DataCallsStep(s.calls, OnConnection(AtClosed));
  }

  // Closed by the caller, no poll in flight, and `data` data callbacks made so far.
  predicate Drained(s: State, data: nat) {
    s.manuallyClosed && s.polls == 0 && DataCalls(s.calls) == data
  }

  lemma {:induction false} SilentOnceDrained(first: Outcome, max: nat, es: seq<Event>, ss: seq<State>, i: nat, j: nat, data: nat)
    requires Run(first, max, es, ss) && i <= j <= |es| && |ss| == |es| + 1 && Drained(ss[i], data)
    ensures Drained(ss[j], data)
    decreases j
  {
    hide *;
    if i < j {
      SilentOnceDrained(first, max, es, ss, i, j - 1, data);
      DrainedStep(first, max, es, ss, j - 1, data);
    }
  }

  lemma DrainedStep(first: Outcome, max: nat, es: seq<Event>, ss: seq<State>, k: nat, data: nat)
    requires Run(first, max, es, ss) && k < |es| && |ss| == |es| + 1 && Drained(ss[k], data)
    ensures Drained(ss[k + 1], data)
  {
    NthStep(first, max, es, ss, k);
    RunKeepsInv(first, max, es, ss, k);
    DrainedNext(ss[k], es[k], max, data);
  }

  lemma DrainedNext(s: State, e: Event, max: nat, data: nat)
    requires Inv(s, max) && Enabled(s, e) && Drained(s, data)
    ensures Drained(Next(s, e, max), data)
  {
    assert !e.PollEvent?;
    hide Next, Inv, DataCalls;
    ClosedStepData(s, e, max);
    StopIsFinal(s, e, max);
  }

  // close() silences a stream for good exactly when no getRun call is in flight at that moment.
  lemma CloseSilencesIff(first: Outcome, max: nat, es: seq<Event>, ss: seq<State>, run: RunData)
    requires Run(first, max, es, ss) && ss[|es|].manuallyClosed
    ensures ss[|es|].polls == 0 <==>
              forall es': seq<Event>, ss': seq<State> ::
                Run(first, max, es', ss') && es <= es' && ss <= ss' ==> DataCalls(ss'[|es'|].calls) == DataCalls(ss[|es|].calls)
  {
    hide Next, Inv;
    var s := ss[|es|];
    RunKeepsInv(first, max, es, ss, |es|);
    if s.polls == 0 {
      forall es': seq<Event>, ss': seq<State> | Run(first, max, es', ss') && es <= es' && ss <= ss'
        ensures DataCalls(ss'[|es'|].calls) == DataCalls(s.calls)
      {
        SilentOnceDrained(first, max, es', ss', |es|, |es'|, DataCalls(s.calls));
      }
    } else {
      var e := PollEvent(Some(run));
      ExtendRun(first, max, es, ss, e);
      ClosedStepData(s, e, max);
    }
  }

  lemma ExtendRun(first: Outcome, max: nat, es: seq<Event>, ss: seq<State>, e: Event)
    requires Run(first, max, es, ss) && Enabled(ss[|es|], e)
    ensures Run(first, max, es + [e], ss + [Next(ss[|es|], e, max)])
    ensures es <= es + [e] && ss <= ss + [Next(ss[|es|], e, max)]
  {
    hide Next, Enabled;
  }

  predicate LastConnecting(s: State) {
    s.sockets != [] && s.sockets[|s.sockets| - 1].phase == Connecting
  }

  function OpenCalls(calls: seq<Callback>): nat {
    if calls == [] then 0
    else OpenCalls(calls[..|calls| - 1]) + if calls[|calls| - 1] == OnConnection(AtOpen) then 1 else 0
  }

  // b continues a without reporting "open".
  predicate NoOpenSince(a: seq<Callback>, b: seq<Callback>) {
    a <= b && forall k :: |a| <= k < |b| ==> b[k] != OnConnection(AtOpen)
  }

  lemma {:induction false} SameOpenCalls(a: seq<Callback>, b: seq<Callback>)
    requires NoOpenSince(a, b)
    ensures OpenCalls(b) == OpenCalls(a)
    decreases |b|
  {
    if |a| < |b| {
      SameOpenCalls(a, b[..|b| - 1]);
    } else {
      assert a == b;
    }
  }

  // Stopped for good: the last socket, if any, is past connecting, and `opens` times "open" was reported.
  predicate Shut(s: State, opens: nat) {
    s.Stopped() && !LastConnecting(s) && OpenCalls(s.calls) == opens
  }

  lemma StoppedStepCalls(s: State, e: Event, max: nat)
    requires Enabled(s, e) && s.Stopped() && !e.OpenEvent?
    ensures NoOpenSince(s.calls, Next(s, e, max).calls)
  {
    match e
    case PollEvent(result) => PollReportsNoOpen(s, result);
    case MessageEvent(_, frame) => assert |Dispatch(s, frame).calls| <= |s.calls| + 1;
    case CallerCloses => assert CloseByCaller(s).calls == s.calls + [OnConnection(AtClosed)];
    case CloseEvent(id, code) => assert Closed(s, id, code, max).calls <= s.calls + [OnConnection(AtClosed)];
    case TimerEvent(id, o) => assert TimerFired(s, id, o, max).calls == s.calls;
    case _ =>
  }

  lemma PollReportsNoOpen(s: State, result: Option<RunData>)
    ensures NoOpenSince(s.calls, PollDone(s, result).calls)
  {
  }

  lemma ShutSockets(s: State, e: Event, max: nat)
    requires Inv(s, max) && Enabled(s, e) && s.Stopped() && !LastConnecting(s)
    ensures !e.OpenEvent? && Next(s, e, max).Stopped() && !LastConnecting(Next(s, e, max))
  {
  }

  lemma ShutStep(first: Outcome, max: nat, es: seq<Event>, ss: seq<State>, k: nat, opens: nat)
    requires Run(first, max, es, ss) && k < |es| && |ss| == |es| + 1 && Shut(ss[k], opens)
    ensures Shut(ss[k + 1], opens)
  {
    NthStep(first, max, es, ss, k);
    RunKeepsInv(first, max, es, ss, k);
    hide Run, Next, Inv, Enabled, OpenCalls, LastConnecting;
    ShutSockets(ss[k], es[k], max);
    StoppedStepCalls(ss[k], es[k], max);
    SameOpenCalls(ss[k].calls, ss[k + 1].calls);
  }

  lemma {:induction false} ShutStays(first: Outcome, max: nat, es: seq<Event>, ss: seq<State>, i: nat, j: nat, opens: nat)
    requires Run(first, max, es, ss) && i <= j <= |es| && |ss| == |es| + 1 && Shut(ss[i], opens)
    ensures Shut(ss[j], opens)
    decreases j
  {
    hide *;
    if i < j {
      ShutStays(first, max, es, ss, i, j - 1, opens);
      ShutStep(first, max, es, ss, j - 1, opens);
    }
  }

  // Some continuation of a stopped run reports "open" once more exactly when its last socket is still
  // connecting.
  lemma OpenAfterStopIff(first: Outcome, max: nat, es: seq<Event>, ss: seq<State>)
    requires Run(first, max, es, ss) && ss[|es|].Stopped()
    ensures (exists es': seq<Event>, ss': seq<State> ::
               Run(first, max, es', ss') && es <= es' && ss <= ss' && OpenCalls(ss'[|es'|].calls) > OpenCalls(ss[|es|].calls)) <==>
            LastConnecting(ss[|es|])
  {
    hide Next, Inv, OpenCalls;
    var s := ss[|es|];
    if LastConnecting(s) {
      var e := OpenEvent(|s.sockets| - 1);
      ExtendRun(first, max, es, ss, e);
      OpenReports(s, |s.sockets| - 1, max);
    } else {
      forall es': seq<Event>, ss': seq<State> | Run(first, max, es', ss') && es <= es' && ss <= ss'
        ensures OpenCalls(ss'[|es'|].calls) == OpenCalls(s.calls)
      {
        ShutStays(first, max, es', ss', |es|, |es'|, OpenCalls(s.calls));
      }
    }
  }

  lemma OpenReports(s: State, id: nat, max: nat)
    requires Enabled(s, OpenEvent(id))
    ensures OpenCalls(Next(s, OpenEvent(id), max).calls) == OpenCalls(s.calls) + 1
  {
    var n := Next(s, OpenEvent(id), max);
    assert n.calls == s.calls + [OnConnection(AtOpen)];
    assert n.calls[..|n.calls| - 1] == s.calls;
  }

  // ---------------------------------------------------------------------------
  // Both happen
  // ---------------------------------------------------------------------------

  // The stream whose first connect threw: it polls on timer 1 and retries on timer 2.
  lemma AfterFailedConnect(max: nat) returns (s: State)
    ensures s == Connect(FRESH, Throws, max) && Run(Throws, max, [], [s])
    ensures !s.Stopped() && s.sockets == [] && s.polls == 0 && s.ws == None
    ensures s.pending == map[1 := Poll, 2 := Retry(Backoff(0, max))] && s.pollTimer == Some(1) && s.reconnectTimer == Some(2)
  {
    s := Connect(FRESH, Throws, max);
    assert !FRESH.Stopped();
    assert s.pending == map[1 := Poll, 2 := Retry(Backoff(0, max))];
  }

  // A socket opens and starts to close: until its close event nothing informs the interface.
  lemma UninformedOccurs(max: nat) returns (es: seq<Event>, ss: seq<State>)
    ensures Run(Connects, max, es, ss) && !ss[|es|].Stopped() && CloseUnreported(ss[|es|])
  {
    var s0 := Connect(FRESH, Connects, max);
    var s1 := Next(s0, OpenEvent(0), max);
    var s2 := Next(s1, ClosingEvent(0), max);
    es, ss := [OpenEvent(0), ClosingEvent(0)], [s0, s1, s2];
  }

  // What the interface shows for one step index.
  function StepShown(s: State, index: int): Option<RunStep> {
    var run := Fold(BLANK, s.calls).run;
    if run.Some? then StepAt(run.value.steps, index) else None
  }

  // The socket opens while a poll is in flight.
  lemma OpensWithPollInFlight(max: nat) returns (es: seq<Event>, ss: seq<State>)
    ensures Run(Throws, max, es, ss) && |es| == 3
    ensures ss[3].polls == 1 && |ss[3].sockets| == 1 && ss[3].sockets[0].phase == Open
  {
    var s0 := AfterFailedConnect(max);
    var e0, e1, e2 := TimerEvent(1, Connects), TimerEvent(2, Connects), OpenEvent(0);
    var s1 := Next(s0, e0, max);
    var s2 := Next(s1, e1, max);
    var s3 := Next(s2, e2, max);
    hide Next;
    ExtendRun(Throws, max, [], [s0], e0);
    ExtendRun(Throws, max, [e0], [s0, s1], e1);
    ExtendRun(Throws, max, [e0, e1], [s0, s1, s2], e2);
    es, ss := [e0, e1, e2], [s0, s1, s2, s3];
  }

  lemma FramesShow(s: State, run: RunData, step: RunStep)
    requires Distinct(run.steps)
    ensures StepShown(Dispatch(Dispatch(s, SnapshotFrame(run)), StepFrame(step)), step.index) == Some(step)
  {
    hide IsTerminal, MergeStep;
    FoldStep(s.calls, OnSnapshot(run));
    FoldStep(s.calls + [OnSnapshot(run)], OnStepUpdate(step));
    MergeStepSets(run.steps, step);
    hide Fold;
  }

  // A poll asked before the socket opened is answered after a snapshot and a step frame: what it brings
  // replaces them.
  lemma OldPollLandsLate(max: nat, run: RunData, step: RunStep, late: RunData) returns (es: seq<Event>, ss: seq<State>)
    requires Distinct(run.steps)
    ensures Run(Throws, max, es, ss) && |es| == 6
    ensures es[3] == MessageEvent(0, SnapshotFrame(run)) && es[4] == MessageEvent(0, StepFrame(step)) && es[5] == PollEvent(Some(late))
    ensures StepShown(ss[5], step.index) == Some(step)
    ensures StepShown(ss[6], step.index) == StepAt(late.steps, step.index)
  {
    hide StepShown;
    es, ss := OpensWithPollInFlight(max);
    var e3, e4, e5 := MessageEvent(0, SnapshotFrame(run)), MessageEvent(0, StepFrame(step)), PollEvent(Some(late));
    var s4 := Next(ss[3], e3, max);
    var s5 := Next(s4, e4, max);
    var s6 := Next(s5, e5, max);
    FramesShow(ss[3], run, step);
    PollReplaces(s5, late, step.index);
    hide Next, Run, Enabled;
    ExtendRun(Throws, max, es, ss, e3);
    ExtendRun(Throws, max, es + [e3], ss + [s4], e4);
    ExtendRun(Throws, max, es + [e3] + [e4], ss + [s4] + [s5], e5);
    es, ss := es + [e3] + [e4] + [e5], ss + [s4] + [s5] + [s6];
  }

  lemma PollReplaces(s: State, run: RunData, index: int)
    ensures StepShown(PollDone(s, Some(run)), index) == StepAt(run.steps, index)
  {
    hide IsTerminal, StepAt;
    FoldStep(s.calls, OnSnapshot(run));
    FoldStep(s.calls + [OnSnapshot(run)], OnConnection(AtClosed));
    hide Fold;
  }

  // The retry connects, a poll finds the run over, and then the socket opens all the same.
  lemma OpensAfterStop(max: nat, run: RunData) returns (es: seq<Event>, ss: seq<State>)
    requires IsTerminal(run.status)
    ensures Run(Throws, max, es, ss) && |es| == 4 && ss[3].runIsTerminal
    ensures ss[4].calls == ss[3].calls + [OnConnection(AtOpen)]
  {
    hide IsTerminal;
    var s0 := AfterFailedConnect(max);
    var e0, e1, e2, e3 := TimerEvent(2, Connects), TimerEvent(1, Connects), PollEvent(Some(run)), OpenEvent(0);
    var s1 := Next(s0, e0, max);
    var s2 := Next(s1, e1, max);
    var s3 := Next(s2, e2, max);
    var s4 := Next(s3, e3, max);
    hide Next;
    ExtendRun(Throws, max, [], [s0], e0);
    ExtendRun(Throws, max, [e0], [s0, s1], e1);
    ExtendRun(Throws, max, [e0, e1], [s0, s1, s2], e2);
    ExtendRun(Throws, max, [e0, e1, e2], [s0, s1, s2, s3], e3);
    es, ss := [e0, e1, e2, e3], [s0, s1, s2, s3, s4];
  }

  // A poll is in flight when the caller closes; its answer is delivered afterwards.
  lemma DataAfterClose(max: nat, run: RunData) returns (es: seq<Event>, ss: seq<State>)
    ensures Run(Throws, max, es, ss) && |es| == 3 && ss[2].manuallyClosed && ss[2].polls > 0
    ensures DataCalls(ss[3].calls) == DataCalls(ss[2].calls) + 1
  {
    var s0 := AfterFailedConnect(max);
    var e0, e2 := TimerEvent(1, Connects), PollEvent(Some(run));
    var s1 := Next(s0, e0, max);
    var s2 := Next(s1, CallerCloses, max);
    var s3 := Next(s2, e2, max);
    hide Next, DataCalls, Inv;
    ExtendRun(Throws, max, [], [s0], e0);
    ExtendRun(Throws, max, [e0], [s0, s1], CallerCloses);
    ExtendRun(Throws, max, [e0, CallerCloses], [s0, s1, s2], e2);
    es, ss := [e0, CallerCloses, e2], [s0, s1, s2, s3];
    RunKeepsInv(Throws, max, es, ss, 2);
    ClosedStepData(s2, e2, max);
  }

  // ---------------------------------------------------------------------------
  // The "reconnecting" banner of use-run-stream.ts
  // ---------------------------------------------------------------------------

  // Until the stream stops, the banner is lit exactly while a retry is waiting.
  ghost predicate BannerRight(s: State) {
    !s.Stopped() ==> (Fold(BLANK, s.calls).isReconnecting <==> Waiting(s))
  }

  lemma FoldStep(calls: seq<Callback>, c: Callback)
    ensures Fold(BLANK, calls + [c]) == Update(Fold(BLANK, calls), c)
  {
    assert (calls + [c])[..|calls + [c]| - 1] == calls;
  }

  lemma ReconnectBanner(s: State, max: nat)
    requires !s.Stopped()
    ensures BannerRight(ScheduleReconnect(s, max))
  {
    var n := ScheduleReconnect(s, max);
    FoldStep(s.calls, OnConnection(AtReconnecting));
    assert n.calls == s.calls + [OnConnection(AtReconnecting)];
    assert n.reconnectTimer.Some? && n.reconnectTimer.value in n.pending && n.pending[n.reconnectTimer.value].Retry?;
  }

  lemma ConnectBanner(s: State, o: Outcome, max: nat)
    requires !s.Stopped() && !Waiting(s)
    ensures BannerRight(Connect(s, o, max))
  {
    var c := Call(s, OnConnection(AtConnecting));
    FoldStep(s.calls, OnConnection(AtConnecting));
    if o.Throws? {
      ReconnectBanner(Call(c, OnError("connect")), max);
    } else {
      assert !Waiting(Connect(s, o, max));
    }
  }

  lemma OpenBanner(s: State, id: nat, max: nat)
    requires Inv(s, max) && Enabled(s, OpenEvent(id))
    ensures BannerRight(Opened(s, id))
  {
    FoldStep(s.calls, OnConnection(AtOpen));
    hide Fold;
    assert Undead(s, |s.sockets| - 1) && !Waiting(s);
    assert !Waiting(Opened(s, id));
  }

  lemma CallBanner(s: State, n: State, c: Callback)
    requires BannerRight(s) && !c.OnConnection? && n.calls == s.calls + [c]
    requires n.pending == s.pending && (s.Stopped() ==> n.Stopped())
    ensures BannerRight(n)
  {
    FoldStep(s.calls, c);
    assert Waiting(n) <==> Waiting(s);
  }

  lemma SameBanner(s: State, n: State)
    requires BannerRight(s) && n.calls == s.calls && n.pending == s.pending && (s.Stopped() ==> n.Stopped())
    ensures BannerRight(n)
  {
    assert Waiting(n) <==> Waiting(s);
  }

  lemma PollBanner(s: State, result: Option<RunData>)
    requires BannerRight(s)
    ensures BannerRight(PollDone(s, result))
  {
    match result
    case None => CallBanner(s, PollDone(s, result), OnError("poll"));
    case Some(run) =>
      if !IsTerminal(run.status) {
        CallBanner(s, PollDone(s, result), OnSnapshot(run));
      }
  }

  lemma DispatchBanner(s: State, f: Frame)
    requires BannerRight(s)
    ensures BannerRight(Dispatch(s, f))
  {
    var n := Dispatch(s, f);
    if n.calls != s.calls {
      CallBanner(s, n, n.calls[|s.calls|]);
    } else {
      SameBanner(s, n);
    }
  }

  lemma TimerBanner(s: State, id: nat, o: Outcome, max: nat)
    requires Inv(s, max) && BannerRight(s) && Enabled(s, TimerEvent(id, o))
    ensures BannerRight(TimerFired(s, id, o, max))
  {
    var f := s.(pending := s.pending - {id});
    if s.pending[id].Poll? {
      SameBanner(s, TimerFired(s, id, o, max));
    } else if !s.Stopped() {
      assert !Waiting(f);
      ConnectBanner(f, o, max);
    }
  }

  lemma StepBanner(s: State, e: Event, max: nat)
    requires Inv(s, max) && BannerRight(s) && Enabled(s, e)
    ensures BannerRight(Next(s, e, max))
  {
    hide Inv, BannerRight, Opened, Dispatch, TimerFired, PollDone;
    match e
    case OpenEvent(id) => OpenBanner(s, id, max);
    case MessageEvent(_, frame) => DispatchBanner(s, frame);
    case ErrorEvent(_) => CallBanner(s, Call(s, OnError("socket")), OnError("socket"));
    case ClosingEvent(id) => SameBanner(s, Next(s, e, max));
    case CloseEvent(id, code) => CloseBanner(s, id, code, max);
    case TimerEvent(id, o) => TimerBanner(s, id, o, max);
    case PollEvent(result) => PollBanner(s, result);
    case CallerCloses => StoppedBanner(Next(s, e, max));
  }

  lemma CloseBanner(s: State, id: nat, code: int, max: nat)
    requires BannerRight(s) && Enabled(s, CloseEvent(id, code))
    ensures BannerRight(Closed(s, id, code, max))
  {
    var g := s.(sockets := s.sockets[id := s.sockets[id].(phase := Gone)], ws := None);
    if code != 1000 && !s.Stopped() {
      ReconnectBanner(g, max);
    }
  }

  lemma StoppedBanner(s: State)
    requires s.Stopped()
    ensures BannerRight(s)
  {
  }

  lemma {:induction false} BannerFollowsRetries(first: Outcome, max: nat, es: seq<Event>, ss: seq<State>, n: nat)
    requires Run(first, max, es, ss) && n < |ss|
    ensures !ss[n].Stopped() ==> (Fold(BLANK, ss[n].calls).isReconnecting <==> PendingRetries(ss[n]) != {})
  {
    hide Next;
    RunBanner(first, max, es, ss, n);
    if Waiting(ss[n]) {
      var t :| t in ss[n].pending && ss[n].pending[t].Retry?;
      assert t in PendingRetries(ss[n]);
    }
  }

  lemma {:induction false} RunBanner(first: Outcome, max: nat, es: seq<Event>, ss: seq<State>, n: nat)
    requires Run(first, max, es, ss) && n < |ss|
    ensures BannerRight(ss[n])
  {
    if n == 0 {
      ConnectBanner(FRESH, first, max);
    } else {
      RunBanner(first, max, es, ss, n - 1);
      RunKeepsInv(first, max, es, ss, n - 1);
      hide BannerRight, Inv;
      StepBanner(ss[n - 1], es[n - 1], max);
    }
  }
}

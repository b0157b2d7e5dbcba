// openRunStream told by what happened: what stops a stream, and every callback it makes.
module RunStreamHistory {
  import opened Options
  import opened RunFold
  import opened RunStream
  import opened Powers

  predicate IsOver(status: string) {
    status == "succeeded" || status == "failed" || status == "cancelled"
  }

  // A snapshot or run frame with a final status, a poll's answer with one, or a close with code 1000.
  predicate EndsRun(e: Event) {
    match e
    case MessageEvent(_, SnapshotFrame(run)) => IsOver(run.status)
    case MessageEvent(_, RunFrame(status, _, _)) => IsOver(status)
    case PollEvent(Some(run)) => IsOver(run.status)
    case CloseEvent(_, code) => code == 1000
    case _ => false
  }

  predicate Ended(es: seq<Event>) {
    exists i :: 0 <= i < |es| && EndsRun(es[i])
  }

  predicate ClosedByCaller(es: seq<Event>) {
    exists i :: 0 <= i < |es| && es[i] == CallerCloses
  }

  lemma StepStops(s: State, e: Event, max: nat)
    requires Enabled(s, e)
    ensures Next(s, e, max).runIsTerminal <==> s.runIsTerminal || EndsRun(e)
    ensures Next(s, e, max).manuallyClosed <==> s.manuallyClosed || e == CallerCloses
  {
    hide Backoff;
    match e
    case CloseEvent(id, code) => CloseStops(s, id, code, max);
    case PollEvent(result) => PollStops(s, result);
    case CallerCloses => assert CloseByCaller(s).manuallyClosed && CloseByCaller(s).runIsTerminal == s.runIsTerminal;
    case TimerEvent(id, o) => TimerStops(s, id, o, max);
    case _ =>
  }

  lemma CloseStops(s: State, id: nat, code: int, max: nat)
    requires Enabled(s, CloseEvent(id, code))
    ensures Closed(s, id, code, max).runIsTerminal <==> s.runIsTerminal || code == 1000
    ensures Closed(s, id, code, max).manuallyClosed == s.manuallyClosed
  {
  }

  lemma PollStops(s: State, result: Option<RunData>)
    ensures PollDone(s, result).runIsTerminal <==> s.runIsTerminal || (result.Some? && IsOver(result.value.status))
    ensures PollDone(s, result).manuallyClosed == s.manuallyClosed
  {
  }

  lemma TimerStops(s: State, id: nat, o: Outcome, max: nat)
    requires Enabled(s, TimerEvent(id, o))
    ensures var n := TimerFired(s, id, o, max); n.runIsTerminal == s.runIsTerminal && n.manuallyClosed == s.manuallyClosed
  {
  }

  // In every run the stream counts as terminal exactly when one of those four has happened, and as closed
  // exactly when the caller has closed it.
  lemma {:induction false} StoppedIff(first: Outcome, max: nat, es: seq<Event>, ss: seq<State>, n: nat)
    requires Run(first, max, es, ss) && n <= |es| && |ss| == |es| + 1
    ensures ss[n].runIsTerminal <==> Ended(es[..n])
    ensures ss[n].manuallyClosed <==> ClosedByCaller(es[..n])
    decreases n
  {
    if n == 0 {
      FirstConnectCalls(first, max);
    } else {
      StoppedIff(first, max, es, ss, n - 1);
      NthStep(first, max, es, ss, n - 1);
      hide Run, Next, Enabled, EndsRun;
      StepStops(ss[n - 1], es[n - 1], max);
      assert es[..n] == es[..n - 1] + [es[n - 1]];
      OneMore(es[..n - 1], es[n - 1]);
    }
  }

  lemma OneMore(es: seq<Event>, e: Event)
    ensures Ended(es + [e]) <==> Ended(es) || EndsRun(e)
    ensures ClosedByCaller(es + [e]) <==> ClosedByCaller(es) || e == CallerCloses
  {
    hide EndsRun;
    var all := es + [e];
    assert all[|es|] == e;
    assert forall i :: 0 <= i < |es| ==> all[i] == es[i];
  }

  // The callbacks of one event; `stopped` says whether the stream had ended or been closed before.
  function Heard(s: State, e: Event, stopped: bool): seq<Callback>
    requires Enabled(s, e)
  {
    match e
    case OpenEvent(_) => [OnConnection(AtOpen)]
    case MessageEvent(_, SnapshotFrame(run)) => [OnSnapshot(run)]
    case MessageEvent(_, StepFrame(step)) => [OnStepUpdate(step)]
    case MessageEvent(_, RunFrame(status, finishedAt, haltReason)) => [OnRunUpdate(status, finishedAt, haltReason)]
    case MessageEvent(_, ApprovalFrame(approval)) => [OnApprovalRequested(approval)]
    case MessageEvent(_, PingFrame) => []
    case MessageEvent(_, OtherFrame(message)) => [OnError(message)]
    case ErrorEvent(_) => [OnError("socket")]
    case ClosingEvent(_) => []
    case CloseEvent(_, code) =>
      if code == 1000 then [OnConnection(AtClosed)] else if stopped then [] else [OnConnection(AtReconnecting)]
    case TimerEvent(id, o) =>
      if s.pending[id].Poll? || stopped then []
      else if o.Connects? then [OnConnection(AtConnecting)]
      else [OnConnection(AtConnecting), OnError("connect"), OnConnection(AtReconnecting)]
    case PollEvent(None) => [OnError("poll")]
    case PollEvent(Some(run)) => if IsOver(run.status) then [OnSnapshot(run), OnConnection(AtClosed)] else [OnSnapshot(run)]
    case CallerCloses => [OnConnection(AtClosed)]
  }

  lemma ReconnectCalls(s: State, max: nat)
    ensures ScheduleReconnect(s, max).calls == s.calls + if s.Stopped() then [] else [OnConnection(AtReconnecting)]
  {
    hide Backoff;
  }

  lemma ConnectCalls(s: State, o: Outcome, max: nat)
    requires !s.Stopped()
    ensures Connect(s, o, max).calls ==
              s.calls + if o.Connects? then [OnConnection(AtConnecting)]
                        else [OnConnection(AtConnecting), OnError("connect"), OnConnection(AtReconnecting)]
  {
    var c := Call(s, OnConnection(AtConnecting));
    ReconnectCalls(Call(c, OnError("connect")), max);
    hide ScheduleReconnect;
    assert o.Throws? ==>
      Connect(s, o, max).calls == s.calls + [OnConnection(AtConnecting)] + [OnError("connect")] + [OnConnection(AtReconnecting)];
  }

  lemma StepCalls(s: State, e: Event, max: nat)
    requires Enabled(s, e)
    ensures Next(s, e, max).calls == s.calls + Heard(s, e, s.Stopped())
  {
    hide Backoff, Connect, ScheduleReconnect, StopPolling;
    match e
    case CloseEvent(id, code) => CloseCalls(s, id, code, max);
    case TimerEvent(id, o) => TimerCalls(s, id, o, max);
    case PollEvent(result) => PollCalls(s, result);
    case CallerCloses => CallerCloseCalls(s);
    case OpenEvent(id) => OpenedCalls(s, id);
    case _ =>
  }

  lemma OpenedCalls(s: State, id: nat)
    requires Enabled(s, OpenEvent(id))
    ensures Opened(s, id).calls == s.calls + [OnConnection(AtOpen)]
  {
  }

  lemma CallerCloseCalls(s: State)
    ensures CloseByCaller(s).calls == s.calls + [OnConnection(AtClosed)]
  {
  }

  lemma CloseCalls(s: State, id: nat, code: int, max: nat)
    requires Enabled(s, CloseEvent(id, code))
    ensures Closed(s, id, code, max).calls == s.calls + Heard(s, CloseEvent(id, code), s.Stopped())
  {
    var g := s.(sockets := s.sockets[id := s.sockets[id].(phase := Gone)], ws := None);
    ReconnectCalls(g, max);
    hide ScheduleReconnect;
  }

  lemma TimerCalls(s: State, id: nat, o: Outcome, max: nat)
    requires Enabled(s, TimerEvent(id, o))
    ensures TimerFired(s, id, o, max).calls == s.calls + Heard(s, TimerEvent(id, o), s.Stopped())
  {
    var f := s.(pending := s.pending - {id});
    if s.pending[id].Retry? && !s.Stopped() {
      ConnectCalls(f, o, max);
      hide Connect;
    }
  }

  lemma PollCalls(s: State, result: Option<RunData>)
    requires Enabled(s, PollEvent(result))
    ensures PollDone(s, result).calls == s.calls + Heard(s, PollEvent(result), s.Stopped())
  {
    if result.Some? {
      assert s.calls + [OnSnapshot(result.value)] + [OnConnection(AtClosed)] ==
             s.calls + [OnSnapshot(result.value), OnConnection(AtClosed)];
    }
  }

  function FirstHeard(first: Outcome): seq<Callback> {
    if first.Connects? then [OnConnection(AtConnecting)]
    else [OnConnection(AtConnecting), OnError("connect"), OnConnection(AtReconnecting)]
  }

  lemma FirstConnectCalls(first: Outcome, max: nat)
    ensures Connect(FRESH, first, max).calls == FirstHeard(first) && !Connect(FRESH, first, max).Stopped()
  {
    assert !FRESH.Stopped();
    ConnectCalls(FRESH, first, max);
  }

  // All callbacks of the first n events.
  ghost function Trace(first: Outcome, max: nat, es: seq<Event>, ss: seq<State>, n: nat): seq<Callback>
    requires Run(first, max, es, ss) && n <= |es|
  {
    if n == 0 then FirstHeard(first)
    else
      NthStep(first, max, es, ss, n - 1);
      Trace(first, max, es, ss, n - 1) + Heard(ss[n - 1], es[n - 1], Ended(es[..n - 1]) || ClosedByCaller(es[..n - 1]))
  }

  // In every run the callbacks made are these and no others, in this order.
  lemma {:induction false} CallsAreTrace(first: Outcome, max: nat, es: seq<Event>, ss: seq<State>, n: nat)
    requires Run(first, max, es, ss) && n <= |es| && |ss| == |es| + 1
    ensures ss[n].calls == Trace(first, max, es, ss, n)
    decreases n
  {
    if n == 0 {
      FirstConnectCalls(first, max);
    } else {
      hide Run, Next, Enabled, Heard, Ended, ClosedByCaller;
      CallsAreTrace(first, max, es, ss, n - 1);
      NthCalls(first, max, es, ss, n - 1);
    }
  }

  lemma NthCalls(first: Outcome, max: nat, es: seq<Event>, ss: seq<State>, n: nat)
    requires Run(first, max, es, ss) && n < |es| && |ss| == |es| + 1
    ensures Enabled(ss[n], es[n])
    ensures ss[n + 1].calls == ss[n].calls + Heard(ss[n], es[n], Ended(es[..n]) || ClosedByCaller(es[..n]))
  {
    NthStep(first, max, es, ss, n);
    StoppedIff(first, max, es, ss, n);
    hide Run, Next, Enabled, Heard, Ended, ClosedByCaller;
    StepCalls(ss[n], es[n], max);
  }

  // Once the run is over or the caller has closed, no socket is made and no timer started.
  lemma NothingStartsOnceOver(first: Outcome, max: nat, es: seq<Event>, ss: seq<State>, i: nat, j: nat)
    requires Run(first, max, es, ss) && i <= j <= |es| && |ss| == |es| + 1
    requires Ended(es[..i]) || ClosedByCaller(es[..i])
    ensures |ss[j].sockets| == |ss[i].sockets| && ss[j].nextTimer == ss[i].nextTimer
    ensures ss[j].pending.Keys <= ss[i].pending.Keys
    ensures ClosedByCaller(es[..i]) ==> ss[j].pending == map[]
  {
    StoppedIff(first, max, es, ss, i);
    hide Run, Ended, ClosedByCaller;
    NothingStartsAfterStop(first, max, es, ss, i, j);
  }

  // And once the run is over nothing is polled.
  lemma NoPollOnceOver(first: Outcome, max: nat, es: seq<Event>, ss: seq<State>, n: nat, t: nat)
    requires Run(first, max, es, ss) && n <= |es| && |ss| == |es| + 1 && Ended(es[..n])
    requires t in ss[n].pending
    ensures ss[n].pending[t].Retry?
  {
    StoppedIff(first, max, es, ss, n);
    RunKeepsInv(first, max, es, ss, n);
    hide Run, Ended;
  }

  lemma StepMakesSocket(s: State, e: Event, max: nat)
    requires Enabled(s, e)
    ensures var makes := e.TimerEvent? && s.pending[e.id].Retry? && e.outcome.Connects? && !s.Stopped();
            |Next(s, e, max).sockets| == |s.sockets| + (if makes then 1 else 0) &&
            (makes ==> Next(s, e, max).ws == Some(|s.sockets|) && Next(s, e, max).sockets[|s.sockets|].phase == Connecting)
  {
    hide Backoff;
    match e
    case PollEvent(result) => assert PollDone(s, result).sockets == s.sockets;
    case CloseEvent(id, code) => assert |Closed(s, id, code, max).sockets| == |s.sockets|;
    case CallerCloses => assert |CloseByCaller(s).sockets| == |s.sockets|;
    case _ =>
  }

  // In every run a retry that fires before the stream has ended or been closed makes the one new socket,
  // if that does not throw, and no other event makes any.
  lemma SocketsMadeExactly(first: Outcome, max: nat, es: seq<Event>, ss: seq<State>, n: nat)
    requires Run(first, max, es, ss) && n < |es| && |ss| == |es| + 1
    ensures Enabled(ss[n], es[n])
    ensures var makes := es[n].TimerEvent? && ss[n].pending[es[n].id].Retry? && es[n].outcome.Connects? &&
                         !Ended(es[..n]) && !ClosedByCaller(es[..n]);
            |ss[n + 1].sockets| == |ss[n].sockets| + (if makes then 1 else 0) && (makes ==> ss[n + 1].ws == Some(|ss[n].sockets|))
  {
    NthStep(first, max, es, ss, n);
    StoppedIff(first, max, es, ss, n);
    hide Run, Next, Ended, ClosedByCaller;
    StepMakesSocket(ss[n], es[n], max);
  }

  // How often a poll was asked for, and how often one was answered.
  ghost function Asked(es: seq<Event>, ss: seq<State>, n: nat): nat
    requires n <= |es| && |ss| == |es| + 1
  {
    if n == 0 then 0
    else
      var s, e := ss[n - 1], es[n - 1];
      Asked(es, ss, n - 1) + if e.TimerEvent? && e.id in s.pending && s.pending[e.id].Poll? then 1 else 0
  }

  function Answered(es: seq<Event>): nat {
    if es == [] then 0 else Answered(es[..|es| - 1]) + if es[|es| - 1].PollEvent? then 1 else 0
  }

  lemma StepPolls(s: State, e: Event, max: nat)
    requires Enabled(s, e)
    ensures Next(s, e, max).polls ==
              s.polls + (if e.TimerEvent? && s.pending[e.id].Poll? then 1 else 0) - (if e.PollEvent? then 1 else 0)
  {
    hide Backoff;
    match e
    case PollEvent(result) => assert PollDone(s, result).polls == s.polls - 1;
    case CloseEvent(id, code) => assert Closed(s, id, code, max).polls == s.polls;
    case CallerCloses => assert CloseByCaller(s).polls == s.polls;
    case TimerEvent(id, o) => assert s.pending[id].Retry? ==> TimerFired(s, id, o, max).polls == s.polls;
    case _ =>
  }

  // Every poll asked for is answered at most once, and the others are in flight.
  lemma {:induction false} PollsInFlight(first: Outcome, max: nat, es: seq<Event>, ss: seq<State>, n: nat)
    requires Run(first, max, es, ss) && n <= |es| && |ss| == |es| + 1
    ensures Asked(es, ss, n) == ss[n].polls + Answered(es[..n])
    decreases n
  {
    if n > 0 {
      NthStep(first, max, es, ss, n - 1);
      PollsInFlight(first, max, es, ss, n - 1);
      assert es[..n][..n - 1] == es[..n - 1];
      hide Run, Next;
      StepPolls(ss[n - 1], es[n - 1], max);
    }
  }

  // How many retries the callbacks have reported since the last open.
  function RetriesReported(calls: seq<Callback>): nat {
    if calls == [] then 0
    else
      var before := RetriesReported(calls[..|calls| - 1]);
      match calls[|calls| - 1]
      case OnConnection(AtOpen) => 0
      case OnConnection(AtReconnecting) => before + 1
      case _ => before
  }

  lemma OneMoreReported(calls: seq<Callback>, c: Callback)
    ensures RetriesReported(calls + [c]) ==
            if c == OnConnection(AtOpen) then 0 else RetriesReported(calls) + if c == OnConnection(AtReconnecting) then 1 else 0
  {
    assert (calls + [c])[..|calls|] == calls;
  }

  predicate CountsRetries(s: State) {
    s.attempts == |s.waits| == RetriesReported(s.calls)
  }

  lemma ReconnectCounts(s: State, max: nat)
    requires CountsRetries(s)
    ensures CountsRetries(ScheduleReconnect(s, max))
  {
    hide Backoff, RetriesReported;
    OneMoreReported(s.calls, OnConnection(AtReconnecting));
  }

  lemma ConnectCounts(s: State, o: Outcome, max: nat)
    requires CountsRetries(s)
    ensures CountsRetries(Connect(s, o, max))
  {
    hide RetriesReported, ScheduleReconnect;
    OneMoreReported(s.calls, OnConnection(AtConnecting));
    var c := Call(s, OnConnection(AtConnecting));
    OneMoreReported(c.calls, OnError("connect"));
    ReconnectCounts(Call(c, OnError("connect")), max);
  }

  lemma ClosedCounts(s: State, id: nat, code: int, max: nat)
    requires CountsRetries(s) && Enabled(s, CloseEvent(id, code))
    ensures CountsRetries(Closed(s, id, code, max))
  {
    hide RetriesReported, ScheduleReconnect;
    OneMoreReported(s.calls, OnConnection(AtClosed));
    ReconnectCounts(s.(sockets := s.sockets[id := s.sockets[id].(phase := Gone)], ws := None), max);
  }

  lemma PollCounts(s: State, result: Option<RunData>)
    requires CountsRetries(s)
    ensures CountsRetries(PollDone(s, result))
  {
    hide RetriesReported;
    OneMoreReported(s.calls, OnError("poll"));
    if result.Some? {
      OneMoreReported(s.calls, OnSnapshot(result.value));
      OneMoreReported(s.calls + [OnSnapshot(result.value)], OnConnection(AtClosed));
    }
  }

  lemma DispatchCounts(s: State, f: Frame)
    requires CountsRetries(s)
    ensures CountsRetries(Dispatch(s, f))
  {
    hide RetriesReported, IsTerminal;
    match f
    case SnapshotFrame(run) => OneMoreReported(s.calls, OnSnapshot(run));
    case StepFrame(step) => OneMoreReported(s.calls, OnStepUpdate(step));
    case RunFrame(status, finishedAt, haltReason) => OneMoreReported(s.calls, OnRunUpdate(status, finishedAt, haltReason));
    case ApprovalFrame(a) => OneMoreReported(s.calls, OnApprovalRequested(a));
    case PingFrame =>
    case OtherFrame(m) => OneMoreReported(s.calls, OnError(m));
  }

  lemma OpenedCounts(s: State, id: nat)
    requires Enabled(s, OpenEvent(id))
    ensures CountsRetries(Opened(s, id))
  {
    hide RetriesReported;
    OneMoreReported(s.calls, OnConnection(AtOpen));
  }

  lemma CallerCloseCounts(s: State)
    requires CountsRetries(s)
    ensures CountsRetries(CloseByCaller(s))
  {
    hide RetriesReported;
    OneMoreReported(s.calls, OnConnection(AtClosed));
  }

  lemma StepCountsRetries(s: State, e: Event, max: nat)
    requires CountsRetries(s) && Enabled(s, e)
    ensures CountsRetries(Next(s, e, max))
  {
    hide RetriesReported, Opened, Dispatch, Closed, Connect, PollDone, CloseByCaller;
    match e
    case OpenEvent(id) => OpenedCounts(s, id);
    case MessageEvent(_, frame) => DispatchCounts(s, frame);
    case ErrorEvent(_) => OneMoreReported(s.calls, OnError("socket"));
    case ClosingEvent(_) =>
    case CloseEvent(id, code) => ClosedCounts(s, id, code, max);
    case TimerEvent(id, o) => ConnectCounts(s.(pending := s.pending - {id}), o, max);
    case PollEvent(result) => PollCounts(s, result);
    case CallerCloses => CallerCloseCounts(s);
  }

  // In every run a waiting retry is the last one reported, and waits min(1000 * 2^k, max) where k is the
  // number reported before it since the last open.
  lemma RetryWaits(first: Outcome, max: nat, es: seq<Event>, ss: seq<State>, n: nat, t: nat)
    requires Run(first, max, es, ss) && n <= |es| && |ss| == |es| + 1
    requires t in ss[n].pending && ss[n].pending[t].Retry?
    ensures var k := RetriesReported(ss[n].calls) - 1;
            k >= 0 && ss[n].pending[t].delay == if 1000 * Pow2(k) < max then 1000 * Pow2(k) else max
  {
    assert t in PendingRetries(ss[n]);
    RetriesBackOff(first, max, es, ss, n);
    RunCountsRetries(first, max, es, ss, n);
  }

  lemma {:induction false} RunCountsRetries(first: Outcome, max: nat, es: seq<Event>, ss: seq<State>, n: nat)
    requires Run(first, max, es, ss) && n <= |es| && |ss| == |es| + 1
    ensures CountsRetries(ss[n])
    decreases n
  {
    if n == 0 {
      ConnectCounts(FRESH, first, max);
    } else {
      RunCountsRetries(first, max, es, ss, n - 1);
      NthStep(first, max, es, ss, n - 1);
      hide Run, Next, Enabled, CountsRetries;
      StepCountsRetries(ss[n - 1], es[n - 1], max);
    }
  }
}

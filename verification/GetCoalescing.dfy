// _doRequest, _performRequest and _tryRefresh: concurrent identical GETs share one request, and a 401 is
// answered by refreshing the token, by a request of its own, and fetching again.
module GetCoalescing {
  import opened Options

  // What a request comes to.  On the network, Expired is a 401 with a parseable body; Empty is a success
  // without a body; Threw is a rejection.
  datatype Response = Value(body: string) | Empty | Refused(code: string) | Threw | Expired

  const SESSION_EXPIRED := Refused("http_401")

  const REFRESH_URL := "/auth/refresh"

  // Where a call of _performRequest is: waiting for the network, for the refresh request it started, for
  // the retry it returns, or done.
  datatype Phase = AtNetwork | AtRefresh(child: nat) | AtRetry(child: nat) | Settled(result: Response)

  // One call of _performRequest.  `isRefresh` says that its path is the refresh endpoint's, `shared` that
  // it was entered in the map, `finalized` that the clean-up registered with finally() has run; `refresh`
  // and `retry` record the requests it started.
  datatype Frame = Frame(
    url: string, isGet: bool, isRefresh: bool, shared: bool, finalized: bool, phase: Phase, refresh: Option<nat>, retry: Option<nat>)

  datatype State = State(inflight: map<string, nat>, frames: seq<Frame>)

  const INITIAL := State(map[], [])

  // A retry calls the worker itself; through the wrapper is the way the code avoids.
  datatype Retry = Direct | ThroughWrapper

  function Fresh(url: string, isGet: bool, isRefresh: bool, shared: bool): Frame {
    Frame(url, isGet, isRefresh, shared, false, AtNetwork, None, None)
  }

  function Perform(s: State, url: string, isGet: bool, isRefresh: bool, shared: bool): (State, nat) {
    (s.(frames := s.frames + [Fresh(url, isGet, isRefresh, shared)]), |s.frames|)
  }

  // The wrapper: the frame its caller ends up waiting for.
  function DoRequest(s: State, url: string, isGet: bool, isRefresh: bool): (State, nat) {
    if isGet && url in s.inflight then (s, s.inflight[url])
    else
      var (n, f) := Perform(s, url, isGet, isRefresh, isGet);
      (if isGet then n.(inflight := n.inflight[url := f]) else n, f)
  }

  function Put(s: State, f: nat, frame: Frame): State
    requires f < |s.frames|
  {
    s.(frames := s.frames[f := frame])
  }

  function Settle(s: State, f: nat, result: Response): State
    requires f < |s.frames|
  {
    Put(s, f, s.frames[f].(phase := Settled(result)))
  }

  predicate IsSettled(s: State, f: nat) {
    f < |s.frames| && s.frames[f].phase.Settled?
  }

  predicate AtNet(s: State, f: nat) {
    f < |s.frames| && s.frames[f].phase == AtNetwork
  }

  // The frame that a frame's promise waits for.
  function Awaits(s: State, f: nat): Option<nat> {
    if f < |s.frames| then
      match s.frames[f].phase
      case AtRefresh(c) => Some(c)
      case AtRetry(c) => Some(c)
      case _ => None
    else None
  }

  predicate CanResume(s: State, f: nat) {
    f < |s.frames| && Awaits(s, f).Some? && IsSettled(s, Awaits(s, f).value)
  }

  // The response is in.  A 401 outside the refresh endpoint starts a refresh if there is a refresh token.
  function Answer(s: State, f: nat, response: Response, hasToken: bool): State
    requires AtNet(s, f)
  {
    if response != Expired then Settle(s, f, response)
    else if s.frames[f].isRefresh || !hasToken then Settle(s, f, SESSION_EXPIRED)
    else
      var (n, c) := DoRequest(s, REFRESH_URL, false, true);
      Put(n, f, n.frames[f].(phase := AtRefresh(c), refresh := Some(c)))
  }

  // The promise waited for has settled.
  function Resume(s: State, f: nat, retry: Retry): State
    requires CanResume(s, f)
  {
    var frame := s.frames[f];
    match frame.phase
    case AtRefresh(c) =>
      if s.frames[c].phase.result.Value? then
        var (n, x) := if retry.Direct? then Perform(s, frame.url, frame.isGet, frame.isRefresh, false)
                      else DoRequest(s, frame.url, frame.isGet, frame.isRefresh);
        Put(n, f, n.frames[f].(phase := AtRetry(x), retry := Some(x)))
      else Settle(s, f, SESSION_EXPIRED)
    case AtRetry(c) => Settle(s, f, s.frames[c].phase.result)
    case _ => s
  }

  datatype Event =
    | DoEvent(url: string, isGet: bool, isRefresh: bool)
    | AnswerEvent(frame: nat, response: Response, hasToken: bool)
    | ResumeEvent(frame: nat)
    | FinallyEvent(frame: nat)

  predicate Enabled(s: State, e: Event) {
    match e
    case DoEvent(_, _, _) => true
    case AnswerEvent(f, _, _) => AtNet(s, f)
    case ResumeEvent(f) => CanResume(s, f)
    case FinallyEvent(f) => IsSettled(s, f) && s.frames[f].shared && !s.frames[f].finalized
  }

  function Next(s: State, e: Event, retry: Retry): State
    requires Enabled(s, e)
  {
    match e
    case DoEvent(url, isGet, isRefresh) => DoRequest(s, url, isGet, isRefresh).0
    case AnswerEvent(f, response, hasToken) => Answer(s, f, response, hasToken)
    case ResumeEvent(f) => Resume(s, f, retry)
    case FinallyEvent(f) =>
      Put(s, f, s.frames[f].(finalized := true)).(inflight := s.inflight - {s.frames[f].url})
  }

  // ss is the sequence of states that the events es lead through, from any state.
  ghost predicate Path(es: seq<Event>, ss: seq<State>, retry: Retry) {
    && |ss| == |es| + 1
    && forall i :: 0 <= i < |es| ==> Enabled(ss[i], es[i]) && ss[i + 1] == Next(ss[i], es[i], retry)
  }

  // What the code does, from the start.
  ghost predicate Run(es: seq<Event>, ss: seq<State>) {
    Path(es, ss, Direct) && ss[0] == INITIAL
  }

  lemma PathStep(es: seq<Event>, ss: seq<State>, retry: Retry, k: nat)
    requires Path(es, ss, retry) && k < |es|
    ensures |ss| == |es| + 1 && Enabled(ss[k], es[k]) && ss[k + 1] == Next(ss[k], es[k], retry)
  {
    hide Enabled, Next;
  }

  lemma JoinPaths(es: seq<Event>, ss: seq<State>, es': seq<Event>, ss': seq<State>, retry: Retry)
    requires Path(es, ss, retry) && Path(es', ss', retry) && ss'[0] == ss[|es|]
    ensures Path(es + es', ss + ss'[1..], retry) && (ss + ss'[1..])[|es + es'|] == ss'[|es'|]
  {
    hide Enabled, Next;
    var all, states := es + es', ss + ss'[1..];
    forall i | 0 <= i < |all|
      ensures Enabled(states[i], all[i]) && states[i + 1] == Next(states[i], all[i], retry)
    {
      if i >= |es| {
        assert states[i] == ss'[i - |es|] && all[i] == es'[i - |es|] && states[i + 1] == ss'[i - |es| + 1];
      }
    }
  }

  // ---------------------------------------------------------------------------
  // The invariant
  // ---------------------------------------------------------------------------

  predicate InFlight(s: State, f: int) {
    0 <= f < |s.frames| && s.frames[f].shared && !s.frames[f].finalized
  }

  // The map is exactly the GETs whose clean-up has not run, by URL.
  ghost predicate MapExact(s: State) {
    && (forall u :: u in s.inflight ==> InFlight(s, s.inflight[u]) && s.frames[s.inflight[u]].url == u)
    && (forall f :: InFlight(s, f) ==> s.frames[f].url in s.inflight && s.inflight[s.frames[f].url] == f)
  }

  // The request started for a refresh is a later one, to the refresh endpoint, and not in the map.
  predicate RefreshOk(s: State, f: nat, c: nat) {
    f < c < |s.frames| && s.frames[c].isRefresh && !s.frames[c].shared
  }

  // A retry is a later call for the same URL, not in the map.
  predicate RetryOk(s: State, f: nat, x: nat)
    requires f < |s.frames|
  {
    f < x < |s.frames| && s.frames[x].url == s.frames[f].url && s.frames[x].isGet == s.frames[f].isGet && !s.frames[x].shared
  }

  predicate Granted(s: State, c: nat) {
    IsSettled(s, c) && s.frames[c].phase.result.Value?
  }

  predicate FrameOk(s: State, f: nat)
    requires f < |s.frames|
  {
    var frame := s.frames[f];
    && (frame.shared ==> frame.isGet)
    && (frame.finalized ==> frame.phase.Settled?)
    && (frame.isRefresh ==> frame.refresh == None)
    && (frame.refresh.Some? ==> RefreshOk(s, f, frame.refresh.value))
    && (frame.retry.Some? ==>
          RetryOk(s, f, frame.retry.value) && frame.refresh.Some? && Granted(s, frame.refresh.value) && frame.refresh.value < frame.retry.value)
    && match frame.phase
       case AtNetwork => frame.refresh == None && frame.retry == None
       case AtRefresh(c) => frame.refresh == Some(c) && frame.retry == None
       case AtRetry(x) => frame.retry == Some(x)
       case Settled(_) => true
  }

  ghost predicate FramesOk(s: State) {
    forall f :: 0 <= f < |s.frames| ==> FrameOk(s, f)
  }

  ghost predicate Inv(s: State) {
    MapExact(s) && FramesOk(s)
  }

  // Frames only grow, keep who they are, and keep what they settled to.
  predicate Grows(a: Frame, b: Frame) {
    && b.url == a.url && b.isGet == a.isGet && b.isRefresh == a.isRefresh && b.shared == a.shared
    && (a.phase.Settled? ==> b.phase == a.phase)
  }

  ghost predicate Later(s: State, n: State) {
    |s.frames| <= |n.frames| && forall f :: 0 <= f < |s.frames| ==> Grows(s.frames[f], n.frames[f])
  }

  lemma FrameStays(s: State, n: State, f: nat)
    requires f < |s.frames| && FrameOk(s, f) && Later(s, n) && n.frames[f] == s.frames[f]
    ensures FrameOk(n, f)
  {
  }

  // Starting a frame.
  lemma PerformKeeps(s: State, url: string, isGet: bool, isRefresh: bool)
    requires Inv(s)
    ensures var n := Perform(s, url, isGet, isRefresh, false).0; Inv(n) && Later(s, n)
  {
    var n := Perform(s, url, isGet, isRefresh, false).0;
    forall f | 0 <= f < |n.frames|
      ensures FrameOk(n, f)
    {
      if f < |s.frames| {
        FrameStays(s, n, f);
      }
    }
    assert forall f :: InFlight(n, f) <==> InFlight(s, f);
  }

  lemma DoKeeps(s: State, url: string, isGet: bool, isRefresh: bool)
    requires Inv(s)
    ensures var (n, f) := DoRequest(s, url, isGet, isRefresh);
            Inv(n) && Later(s, n) && f < |n.frames| && n.frames[f].url == url && n.frames[f].isGet == isGet
  {
    var (n, joined) := DoRequest(s, url, isGet, isRefresh);
    if isGet && url in s.inflight {
      assert FrameOk(s, joined);
    } else {
      forall f | 0 <= f < |n.frames|
        ensures FrameOk(n, f)
      {
        if f < |s.frames| {
          FrameStays(s, n, f);
        }
      }
      hide FrameOk;
      forall f | InFlight(n, f)
        ensures n.frames[f].url in n.inflight && n.inflight[n.frames[f].url] == f
      {
        if f < |s.frames| {
          assert InFlight(s, f);
        }
      }
    }
  }

  // Changing one frame.
  lemma PutKeeps(s: State, f: nat, frame: Frame)
    requires Inv(s) && f < |s.frames| && Grows(s.frames[f], frame) && frame.finalized == s.frames[f].finalized
    requires FrameOk(Put(s, f, frame), f)
    ensures Inv(Put(s, f, frame)) && Later(s, Put(s, f, frame))
  {
    var n := Put(s, f, frame);
    forall g | 0 <= g < |n.frames|
      ensures FrameOk(n, g)
    {
      if g != f {
        FrameStays(s, n, g);
      }
    }
    hide FrameOk;
    assert forall g :: InFlight(n, g) <==> InFlight(s, g);
  }

  lemma SettleKeeps(s: State, f: nat, result: Response)
    requires Inv(s) && f < |s.frames| && !IsSettled(s, f)
    ensures Inv(Settle(s, f, result)) && Later(s, Settle(s, f, result))
  {
    assert FrameOk(s, f);
    PutKeeps(s, f, s.frames[f].(phase := Settled(result)));
  }

  lemma AnswerKeeps(s: State, f: nat, response: Response, hasToken: bool)
    requires Inv(s) && AtNet(s, f)
    ensures Inv(Answer(s, f, response, hasToken)) && Later(s, Answer(s, f, response, hasToken))
  {
    assert FrameOk(s, f);
    if response == Expired && !s.frames[f].isRefresh && hasToken {
      PerformKeeps(s, REFRESH_URL, false, true);
      var (n, c) := DoRequest(s, REFRESH_URL, false, true);
      assert n == Perform(s, REFRESH_URL, false, true, false).0;
      hide Inv, MapExact;
      PutKeeps(n, f, n.frames[f].(phase := AtRefresh(c), refresh := Some(c)));
      hide FrameOk, Perform;
    } else {
      SettleKeeps(s, f, if response == Expired then SESSION_EXPIRED else response);
    }
  }

  lemma ResumeKeeps(s: State, f: nat)
    requires Inv(s) && CanResume(s, f)
    ensures Inv(Resume(s, f, Direct)) && Later(s, Resume(s, f, Direct))
  {
    assert FrameOk(s, f);
    var frame := s.frames[f];
    if frame.phase.AtRefresh? && Granted(s, frame.phase.child) {
      PerformKeeps(s, frame.url, frame.isGet, frame.isRefresh);
      var (n, x) := Perform(s, frame.url, frame.isGet, frame.isRefresh, false);
      hide Inv, MapExact;
      PutKeeps(n, f, n.frames[f].(phase := AtRetry(x), retry := Some(x)));
      hide FrameOk, Perform;
    } else {
      SettleKeeps(s, f, if frame.phase.AtRefresh? then SESSION_EXPIRED else s.frames[frame.phase.child].phase.result);
    }
  }

  lemma FinallyKeeps(s: State, f: nat)
    requires Inv(s) && Enabled(s, FinallyEvent(f))
    ensures Inv(Next(s, FinallyEvent(f), Direct)) && Later(s, Next(s, FinallyEvent(f), Direct))
  {
    var n := Next(s, FinallyEvent(f), Direct);
    assert InFlight(s, f);
    forall g | 0 <= g < |n.frames|
      ensures FrameOk(n, g)
    {
      assert FrameOk(s, g);
      if g != f {
        FrameStays(s, n, g);
      }
    }
    hide FrameOk;
    forall g | InFlight(n, g)
      ensures n.frames[g].url in n.inflight && n.inflight[n.frames[g].url] == g
    {
      assert InFlight(s, g);
    }
  }

  lemma StepPreserves(s: State, e: Event)
    requires Inv(s) && Enabled(s, e)
    ensures Inv(Next(s, e, Direct)) && Later(s, Next(s, e, Direct))
  {
    hide Inv, Later;
    match e
    case DoEvent(url, isGet, isRefresh) => DoKeeps(s, url, isGet, isRefresh);
    case AnswerEvent(f, response, hasToken) => AnswerKeeps(s, f, response, hasToken);
    case ResumeEvent(f) => ResumeKeeps(s, f);
    case FinallyEvent(f) => FinallyKeeps(s, f);
  }

  lemma {:induction false} PathKeepsInv(es: seq<Event>, ss: seq<State>, n: nat)
    requires Path(es, ss, Direct) && Inv(ss[0]) && n < |ss|
    ensures Inv(ss[n])
  {
    if n > 0 {
      PathStep(es, ss, Direct, n - 1);
      hide Path, Inv, Enabled, Next;
      PathKeepsInv(es, ss, n - 1);
      StepPreserves(ss[n - 1], es[n - 1]);
    }
  }

  lemma RunKeepsInv(es: seq<Event>, ss: seq<State>, n: nat)
    requires Run(es, ss) && n < |ss|
    ensures Inv(ss[n])
  {
    hide Path;
    assert Path(es, ss, Direct);
    assert Inv(INITIAL);
    PathKeepsInv(es, ss, n);
  }

  lemma RunIsLater(es: seq<Event>, ss: seq<State>, i: nat, j: nat)
    requires Run(es, ss) && i <= j < |ss|
    ensures Later(ss[i], ss[j])
  {
    assert |ss| == |es| + 1;
    hide *;
    LaterFrom(es, ss, i, j);
  }

  lemma {:induction false} LaterFrom(es: seq<Event>, ss: seq<State>, i: nat, j: nat)
    requires Run(es, ss) && |ss| == |es| + 1 && i <= j <= |es|
    ensures Later(ss[i], ss[j])
    decreases j
  {
    hide *;
    if i < j {
      LaterFrom(es, ss, i, j - 1);
      LaterStep(es, ss, j - 1);
      LaterStill(ss[i], ss[j - 1], ss[j]);
    } else {
      LaterSelf(ss[i]);
    }
  }

  lemma LaterSelf(s: State)
    ensures Later(s, s)
  {
  }

  lemma LaterStep(es: seq<Event>, ss: seq<State>, k: nat)
    requires Run(es, ss) && k < |es| && |ss| == |es| + 1
    ensures Later(ss[k], ss[k + 1])
  {
    PathStep(es, ss, Direct, k);
    RunKeepsInv(es, ss, k);
    hide *;
    StepPreserves(ss[k], es[k]);
  }

  lemma LaterStill(s: State, m: State, n: State)
    requires Later(s, m) && Later(m, n)
    ensures Later(s, n)
  {
    forall f | 0 <= f < |s.frames|
      ensures Grows(s.frames[f], n.frames[f])
    {
      assert Grows(s.frames[f], m.frames[f]) && Grows(m.frames[f], n.frames[f]);
    }
  }

  // ---------------------------------------------------------------------------
  // Sharing
  // ---------------------------------------------------------------------------

  // One entry per URL with a GET whose clean-up is due, and no other; so two such GETs have two URLs.
  lemma OneEntryPerUrl(es: seq<Event>, ss: seq<State>, n: nat, url: string, f: nat)
    requires Run(es, ss) && n < |ss|
    ensures (url in ss[n].inflight && ss[n].inflight[url] == f) <==>
            (InFlight(ss[n], f) && ss[n].frames[f].url == url)
    ensures f < |ss[n].frames| && ss[n].frames[f].shared && !IsSettled(ss[n], f) ==> InFlight(ss[n], f)
  {
    RunKeepsInv(es, ss, n);
    hide Path, Run;
    if f < |ss[n].frames| {
      assert FrameOk(ss[n], f);
    }
  }

  // A call joins an earlier request exactly when it is a GET and that one is a GET of its URL in flight.
  lemma SharingIsExact(es: seq<Event>, ss: seq<State>, n: nat, url: string, isGet: bool, isRefresh: bool, f: nat)
    requires Run(es, ss) && n < |ss| && f < |ss[n].frames|
    ensures DoRequest(ss[n], url, isGet, isRefresh).1 == f <==> isGet && InFlight(ss[n], f) && ss[n].frames[f].url == url
    ensures InFlight(ss[n], f) ==> ss[n].frames[f].isGet
  {
    OneEntryPerUrl(es, ss, n, url, f);
    RunKeepsInv(es, ss, n);
    assert FrameOk(ss[n], f);
  }

  lemma ResultsAreFinal(es: seq<Event>, ss: seq<State>, i: nat, j: nat, f: nat)
    requires Run(es, ss) && i <= j < |ss| && f < |ss[i].frames|
    ensures f < |ss[j].frames|
    ensures IsSettled(ss[i], f) ==> ss[j].frames[f].phase == ss[i].frames[f].phase
  {
    RunIsLater(es, ss, i, j);
  }

  // A GET made at step a is joined by a GET of the same URL at step b as long as it is in flight, and
  // not afterwards; both callers hold the same promise, whose result does not change once settled.
  lemma JoinersShareTheResult(es: seq<Event>, ss: seq<State>, a: nat, b: nat, n: nat, url: string, isRefresh: bool)
    requires Run(es, ss) && a < b <= n < |ss| && a < |es| && es[a] == DoEvent(url, true, isRefresh)
    ensures var f := DoRequest(ss[a], url, true, isRefresh).1;
            && f < |ss[b].frames|
            && (DoRequest(ss[b], url, true, isRefresh).1 == f <==> InFlight(ss[b], f))
            && (IsSettled(ss[b], f) ==> f < |ss[n].frames| && ss[n].frames[f].phase == ss[b].frames[f].phase)
  {
    PathStep(es, ss, Direct, a);
    RunKeepsInv(es, ss, a);
    DoKeeps(ss[a], url, true, isRefresh);
    var f := DoRequest(ss[a], url, true, isRefresh).1;
    hide Path, Inv, DoRequest;
    RunIsLater(es, ss, a + 1, b);
    assert Grows(ss[a + 1].frames[f], ss[b].frames[f]);
    SharingIsExact(es, ss, b, url, true, isRefresh, f);
    ResultsAreFinal(es, ss, b, n, f);
  }

  // ---------------------------------------------------------------------------
  // Waiting
  // ---------------------------------------------------------------------------

  // Each frame of the chain waits for the next.
  ghost predicate WaitingChain(s: State, chain: seq<nat>) {
    forall k :: 0 <= k < |chain| - 1 ==> Awaits(s, chain[k]) == Some(chain[k + 1])
  }

  lemma AwaitsLater(s: State, f: nat)
    requires Inv(s) && Awaits(s, f).Some?
    ensures f < Awaits(s, f).value < |s.frames|
  {
    assert FrameOk(s, f);
  }

  lemma {:induction false} ChainRises(s: State, chain: seq<nat>)
    requires Inv(s) && |chain| >= 2 && WaitingChain(s, chain)
    ensures chain[0] < chain[|chain| - 1]
  {
    hide Inv, Awaits;
    var last := |chain| - 1;
    assert Awaits(s, chain[last - 1]) == Some(chain[last - 1 + 1]);
    AwaitsLater(s, chain[last - 1]);
    if last > 1 {
      ChainRises(s, chain[..last]);
    }
  }

  // In every run no frame waits for itself, however many others are between.
  lemma NeverWaitsForItself(es: seq<Event>, ss: seq<State>, n: nat, chain: seq<nat>)
    requires Run(es, ss) && n < |ss| && |chain| >= 2 && WaitingChain(ss[n], chain)
    ensures chain[0] != chain[|chain| - 1]
  {
    RunKeepsInv(es, ss, n);
    ChainRises(ss[n], chain);
  }

  // A chain that cannot be longer, and why it ends: at the network, or at a result that the frame before
  // can take up at once.
  ghost predicate EndsWell(s: State, chain: seq<nat>) {
    && |chain| >= 1 && WaitingChain(s, chain)
    && var last := chain[|chain| - 1];
       AtNet(s, last) || (|chain| >= 2 && IsSettled(s, last) && CanResume(s, chain[|chain| - 2]))
  }

  lemma {:induction false} ChainEnds(s: State, f: nat) returns (chain: seq<nat>)
    requires Inv(s) && f < |s.frames| && !IsSettled(s, f)
    ensures EndsWell(s, chain) && chain[0] == f
    decreases |s.frames| - f
  {
    chain := [f];
    if !AtNet(s, f) {
      AwaitsLater(s, f);
      var c := Awaits(s, f).value;
      if IsSettled(s, c) {
        chain := [f, c];
      } else {
        var rest := ChainEnds(s, c);
        hide Inv, Awaits, AtNet, IsSettled, CanResume;
        chain := [f] + rest;
        forall k | 0 <= k < |chain| - 1
          ensures Awaits(s, chain[k]) == Some(chain[k + 1])
        {
          if k > 0 {
            assert chain[k] == rest[k - 1] && chain[k + 1] == rest[k - 1 + 1];
          }
        }
      }
    }
  }

  // In every run, what an unsettled request waits for, followed to the end, is the network.
  lemma WaitsForTheNetwork(es: seq<Event>, ss: seq<State>, n: nat, f: nat) returns (chain: seq<nat>)
    requires Run(es, ss) && n < |ss| && f < |ss[n].frames| && !IsSettled(ss[n], f)
    ensures EndsWell(ss[n], chain) && chain[0] == f
  {
    RunKeepsInv(es, ss, n);
    chain := ChainEnds(ss[n], f);
  }

  // A path of events that settles f and changes no frame before f.
  ghost predicate Settles(s: State, f: nat, es: seq<Event>, ss: seq<State>) {
    && Path(es, ss, Direct) && ss[0] == s && IsSettled(ss[|es|], f)
    && forall g :: 0 <= g < f && g < |s.frames| ==> |ss[|es|].frames| > g && ss[|es|].frames[g] == s.frames[g]
  }

  lemma SettleByAnswer(s: State, f: nat) returns (es: seq<Event>, ss: seq<State>)
    requires AtNet(s, f)
    ensures Settles(s, f, es, ss)
  {
    var e := AnswerEvent(f, Refused("http_500"), false);
    es, ss := [e], [s, Next(s, e, Direct)];
  }

  // Taking up a result settles f, or leads to a retry that an answer settles.
  lemma SettleByResume(s: State, f: nat) returns (es: seq<Event>, ss: seq<State>)
    requires Inv(s) && CanResume(s, f)
    ensures Settles(s, f, es, ss)
  {
    var e := ResumeEvent(f);
    var n := Next(s, e, Direct);
    if IsSettled(n, f) {
      es, ss := [e], [s, n];
    } else {
      assert FrameOk(s, f);
      var x := |s.frames|;
      assert AtNet(n, x) && Awaits(n, f) == Some(x);
      var a := AnswerEvent(x, Refused("http_500"), false);
      var m := Next(n, a, Direct);
      assert CanResume(m, f) && m.frames[f] == n.frames[f];
      var end := Next(m, e, Direct);
      es, ss := [e, a, e], [s, n, m, end];
    }
  }

  lemma {:induction false} CanSettleFrom(s: State, f: nat) returns (es: seq<Event>, ss: seq<State>)
    requires Inv(s) && f < |s.frames| && !IsSettled(s, f)
    ensures Settles(s, f, es, ss)
    decreases |s.frames| - f
  {
    if AtNet(s, f) {
      es, ss := SettleByAnswer(s, f);
    } else if CanResume(s, f) {
      es, ss := SettleByResume(s, f);
    } else {
      AwaitsLater(s, f);
      es, ss := CanSettleFrom(s, Awaits(s, f).value);
      PathKeepsInv(es, ss, |es|);
      var m := ss[|es|];
      assert m.frames[f] == s.frames[f];
      var es', ss' := SettleByResume(m, f);
      hide Inv, IsSettled, CanResume, AtNet, Awaits;
      JoinPaths(es, ss, es', ss', Direct);
      es, ss := es + es', ss + ss'[1..];
    }
  }

  // No request is ever stuck: from every state of every run some further answers and resumptions settle it.
  lemma EveryRequestCanSettle(es: seq<Event>, ss: seq<State>, f: nat) returns (es': seq<Event>, ss': seq<State>)
    requires Run(es, ss) && f < |ss[|es|].frames|
    ensures Run(es', ss') && es <= es' && ss <= ss' && IsSettled(ss'[|es'|], f)
  {
    RunKeepsInv(es, ss, |es|);
    es', ss' := es, ss;
    if !IsSettled(ss[|es|], f) {
      var more, states := CanSettleFrom(ss[|es|], f);
      hide Inv, IsSettled;
      JoinPaths(es, ss, more, states, Direct);
      es', ss' := es + more, ss + states[1..];
    }
  }

  // Had the retry gone through the wrapper, a shared GET would have been handed its own entry ...
  lemma RetryThroughWrapperClosesACycle(s: State, f: nat)
    requires Inv(s) && InFlight(s, f) && CanResume(s, f) && s.frames[f].phase.AtRefresh? && Granted(s, s.frames[f].phase.child)
    ensures Awaits(Resume(s, f, ThroughWrapper), f) == Some(f)
  {
    assert FrameOk(s, f);
  }

  // ... and stayed unsettled, whatever happens afterwards and however later retries are made.
  lemma {:induction false} SelfWaitIsForever(es: seq<Event>, ss: seq<State>, retry: Retry, f: nat, n: nat)
    requires Path(es, ss, retry) && Awaits(ss[0], f) == Some(f) && n < |ss|
    ensures Awaits(ss[n], f) == Some(f) && !IsSettled(ss[n], f)
  {
    if n > 0 {
      PathStep(es, ss, retry, n - 1);
      hide Path;
      SelfWaitIsForever(es, ss, retry, f, n - 1);
      SelfWaitStays(ss[n - 1], es[n - 1], retry, f);
    }
  }

  lemma SelfWaitStays(s: State, e: Event, retry: Retry, f: nat)
    requires Enabled(s, e) && Awaits(s, f) == Some(f)
    ensures Awaits(Next(s, e, retry), f) == Some(f)
  {
    assert f < |s.frames| && !IsSettled(s, f) && !CanResume(s, f);
  }

  // The situation arises: a GET is told 401, and its refresh is granted.
  lemma RefreshedGetOccurs() returns (es: seq<Event>, ss: seq<State>)
    ensures Run(es, ss) && InFlight(ss[|es|], 0) && CanResume(ss[|es|], 0)
    ensures ss[|es|].frames[0].phase.AtRefresh? && Granted(ss[|es|], ss[|es|].frames[0].phase.child)
  {
    var e0, e1, e2 := DoEvent("/me", true, false), AnswerEvent(0, Expired, true), AnswerEvent(1, Value("token"), true);
    var s1 := Next(INITIAL, e0, Direct);
    var s2 := Next(s1, e1, Direct);
    var s3 := Next(s2, e2, Direct);
    es, ss := [e0, e1, e2], [INITIAL, s1, s2, s3];
  }

  // ---------------------------------------------------------------------------
  // How often a request is fetched
  // ---------------------------------------------------------------------------

  function RetryOf(s: State, f: nat): Option<nat> {
    if f < |s.frames| && s.frames[f].retry.Some? && f < s.frames[f].retry.value < |s.frames| then s.frames[f].retry else None
  }

  // The fetches of a request: its own and those of its retries.
  function Fetches(s: State, f: nat): nat
    decreases |s.frames| - f
  {
    1 + if RetryOf(s, f).Some? then Fetches(s, RetryOf(s, f).value) else 0
  }

  // The refreshes asked for on the way, and those the server granted.
  function Refreshes(s: State, f: nat): nat
    decreases |s.frames| - f
  {
    (if f < |s.frames| && s.frames[f].refresh.Some? then 1 else 0)
    + if RetryOf(s, f).Some? then Refreshes(s, RetryOf(s, f).value) else 0
  }

  function Grants(s: State, f: nat): nat
    decreases |s.frames| - f
  {
    (if f < |s.frames| && s.frames[f].refresh.Some? && Granted(s, s.frames[f].refresh.value) then 1 else 0)
    + if RetryOf(s, f).Some? then Grants(s, RetryOf(s, f).value) else 0
  }

  // g belongs to the request f: a fetch of it, or a refresh on the way.
  predicate BelongsTo(s: State, f: nat, g: nat)
    decreases |s.frames| - f
  {
    g == f || (f < |s.frames| && s.frames[f].refresh == Some(g)) || (RetryOf(s, f).Some? && BelongsTo(s, RetryOf(s, f).value, g))
  }

  lemma {:induction false} FetchesCounted(s: State, f: nat)
    requires Inv(s) && f < |s.frames|
    ensures Grants(s, f) <= Fetches(s, f) <= Grants(s, f) + 1
    ensures Refreshes(s, f) <= Fetches(s, f)
    decreases |s.frames| - f
  {
    assert FrameOk(s, f);
    if RetryOf(s, f).Some? {
      FetchesCounted(s, RetryOf(s, f).value);
    }
  }

  // While a request is not settled, one of the calls that belong to it waits for the network or can go on.
  lemma {:induction false} RequestIsLive(s: State, f: nat) returns (g: nat)
    requires Inv(s) && f < |s.frames| && !IsSettled(s, f)
    ensures BelongsTo(s, f, g) && (AtNet(s, g) || CanResume(s, g))
    decreases |s.frames| - f
  {
    assert FrameOk(s, f);
    g := f;
    if !AtNet(s, f) && !CanResume(s, f) {
      g := Awaits(s, f).value;
      assert FrameOk(s, g);
      if s.frames[f].phase.AtRetry? {
        g := RequestIsLive(s, g);
      }
    }
  }

  // How many answers and resumptions a call has had.
  function Steps(s: State, f: nat): nat {
    if f < |s.frames| then
      match s.frames[f].phase
      case AtNetwork => 0
      case AtRefresh(_) => 1
      case AtRetry(_) => 2
      case Settled(_) => 1 + (if s.frames[f].refresh.Some? then 1 else 0) + (if s.frames[f].retry.Some? then 1 else 0)
    else 0
  }

  // And all the calls that belong to a request.
  function Work(s: State, f: nat): nat
    decreases |s.frames| - f
  {
    Steps(s, f)
    + (if f < |s.frames| && s.frames[f].refresh.Some? then Steps(s, s.frames[f].refresh.value) else 0)
    + if RetryOf(s, f).Some? then Work(s, RetryOf(s, f).value) else 0
  }

  lemma {:induction false} WorkBounded(s: State, f: nat)
    requires Inv(s) && f < |s.frames|
    ensures Work(s, f) <= 4 * Fetches(s, f)
    decreases |s.frames| - f
  {
    assert FrameOk(s, f);
    if s.frames[f].refresh.Some? {
      assert FrameOk(s, s.frames[f].refresh.value);
    }
    if RetryOf(s, f).Some? {
      WorkBounded(s, RetryOf(s, f).value);
    }
  }

  lemma {:induction false} MembersAreLater(s: State, f: nat, g: nat)
    requires Inv(s) && f < |s.frames| && BelongsTo(s, f, g)
    ensures f <= g < |s.frames|
    decreases |s.frames| - f
  {
    assert FrameOk(s, f);
    if RetryOf(s, f).Some? && BelongsTo(s, RetryOf(s, f).value, g) {
      MembersAreLater(s, RetryOf(s, f).value, g);
    }
  }

  // n is s with one call changed, and perhaps new ones that have had nothing yet.
  predicate OneChanged(s: State, n: State, g: nat) {
    && g < |s.frames| <= |n.frames|
    && (forall f :: 0 <= f < |s.frames| && f != g ==>
          n.frames[f].phase == s.frames[f].phase && n.frames[f].refresh == s.frames[f].refresh && n.frames[f].retry == s.frames[f].retry)
    && (forall f :: |s.frames| <= f < |n.frames| ==>
          n.frames[f].phase == AtNetwork && n.frames[f].refresh == None && n.frames[f].retry == None)
  }

  // The changed call had one step, and what it started, if anything, is new.
  predicate OneStep(s: State, n: State, g: nat) {
    && OneChanged(s, n, g)
    && Steps(n, g) == Steps(s, g) + 1
    && (n.frames[g].refresh == s.frames[g].refresh ||
        (s.frames[g].refresh == None && n.frames[g].refresh.Some? && |s.frames| <= n.frames[g].refresh.value < |n.frames|))
    && (n.frames[g].retry == s.frames[g].retry ||
        (s.frames[g].retry == None && n.frames[g].retry.Some? && |s.frames| <= n.frames[g].retry.value < |n.frames|))
  }

  lemma {:induction false} WorkUnchanged(s: State, n: State, f: nat, g: nat)
    requires Inv(s) && OneChanged(s, n, g) && f < |s.frames| && !BelongsTo(s, f, g)
    ensures Work(n, f) == Work(s, f)
    decreases |s.frames| - f
  {
    assert FrameOk(s, f);
    assert f != g && RetryOf(n, f) == RetryOf(s, f);
    if RetryOf(s, f).Some? {
      WorkUnchanged(s, n, RetryOf(s, f).value, g);
    }
  }

  lemma {:induction false} WorkGrows(s: State, n: State, f: nat, g: nat)
    requires Inv(s) && OneStep(s, n, g) && f < |s.frames| && BelongsTo(s, f, g)
    ensures Work(n, f) == Work(s, f) + 1
    decreases |s.frames| - f
  {
    assert FrameOk(s, f);
    if RetryOf(s, f).Some? {
      var x := RetryOf(s, f).value;
      if BelongsTo(s, x, g) {
        MembersAreLater(s, x, g);
        WorkGrows(s, n, x, g);
      } else {
        WorkUnchanged(s, n, x, g);
      }
      assert RetryOf(n, f) == RetryOf(s, f);
      hide Inv, FrameOk, Work, BelongsTo;
      WorkUnfolds(s, f);
      WorkUnfolds(n, f);
    } else {
      if RetryOf(n, f).Some? {
        assert Work(n, RetryOf(n, f).value) == 0;
      }
    }
  }

  lemma WorkUnfolds(s: State, f: nat)
    ensures Work(s, f) == Steps(s, f)
              + (if f < |s.frames| && s.frames[f].refresh.Some? then Steps(s, s.frames[f].refresh.value) else 0)
              + (if RetryOf(s, f).Some? then Work(s, RetryOf(s, f).value) else 0)
  {
  }

  // An answer to the call or its resumption.
  predicate StepOf(e: Event, g: nat) {
    (e.AnswerEvent? || e.ResumeEvent?) && e.frame == g
  }

  lemma StepIsOne(s: State, e: Event, g: nat)
    requires Inv(s) && Enabled(s, e) && StepOf(e, g)
    ensures OneStep(s, Next(s, e, Direct), g)
  {
    assert FrameOk(s, g);
    hide Inv;
    match e
    case AnswerEvent(_, response, hasToken) => assert OneStep(s, Answer(s, g, response, hasToken), g);
    case ResumeEvent(_) => assert OneStep(s, Resume(s, g, Direct), g);
    case _ =>
  }

  // The other events change no call that matters.
  lemma {:induction false} OtherEventsDoNoWork(s: State, n: State, f: nat)
    requires Inv(s) && f < |s.frames| <= |n.frames|
    requires forall g :: 0 <= g < |s.frames| ==>
      n.frames[g].phase == s.frames[g].phase && n.frames[g].refresh == s.frames[g].refresh && n.frames[g].retry == s.frames[g].retry
    ensures Work(n, f) == Work(s, f)
    decreases |s.frames| - f
  {
    assert FrameOk(s, f);
    assert RetryOf(n, f) == RetryOf(s, f);
    if RetryOf(s, f).Some? {
      OtherEventsDoNoWork(s, n, RetryOf(s, f).value);
    }
  }

  lemma NewFrameHasNoWork(s: State, f: nat)
    requires f < |s.frames| ==> s.frames[f].phase == AtNetwork && s.frames[f].refresh == None && s.frames[f].retry == None
    ensures Work(s, f) == 0
  {
  }

  // Whether a step of the run is an answer to, or a resumption of, a call that belongs to f.
  ghost predicate WorksOn(s: State, e: Event, f: nat) {
    f < |s.frames| && (e.AnswerEvent? || e.ResumeEvent?) && BelongsTo(s, f, e.frame)
  }

  lemma StepWorks(s: State, e: Event, f: nat)
    requires Inv(s) && Enabled(s, e)
    ensures Work(Next(s, e, Direct), f) == Work(s, f) + if WorksOn(s, e, f) then 1 else 0
  {
    var n := Next(s, e, Direct);
    if e.AnswerEvent? || e.ResumeEvent? {
      StepIsOne(s, e, e.frame);
      hide Inv, Next, Enabled, Work, BelongsTo;
      if f >= |s.frames| {
        NewFrameHasNoWork(s, f);
        NewFrameHasNoWork(n, f);
      } else if BelongsTo(s, f, e.frame) {
        WorkGrows(s, n, f, e.frame);
      } else {
        WorkUnchanged(s, n, f, e.frame);
      }
    } else {
      hide Inv, Work, BelongsTo;
      if f >= |s.frames| {
        NewFrameHasNoWork(s, f);
        NewFrameHasNoWork(n, f);
      } else {
        OtherEventsDoNoWork(s, n, f);
      }
    }
  }

  // How many of the first n events of a run work on f.
  ghost function EventsOn(es: seq<Event>, ss: seq<State>, n: nat, f: nat): nat
    requires n <= |es| && |ss| == |es| + 1
  {
    if n == 0 then 0 else EventsOn(es, ss, n - 1, f) + if WorksOn(ss[n - 1], es[n - 1], f) then 1 else 0
  }

  lemma {:induction false} EventsAreWork(es: seq<Event>, ss: seq<State>, n: nat, f: nat)
    requires Run(es, ss) && n <= |es| && |ss| == |es| + 1
    ensures EventsOn(es, ss, n, f) == Work(ss[n], f)
    decreases n
  {
    if n == 0 {
      NewFrameHasNoWork(ss[0], f);
    } else {
      PathStep(es, ss, Direct, n - 1);
      RunKeepsInv(es, ss, n - 1);
      hide Run, Path, Inv, Enabled, Next, Work, WorksOn;
      EventsAreWork(es, ss, n - 1, f);
      StepWorks(ss[n - 1], es[n - 1], f);
    }
  }

  // If the server grants at most k refreshes on the way, the request is fetched at most k + 1 times, with at
  // most k + 1 refresh requests; it takes at most 4(k + 1) answers and resumptions in all, and as long as it
  // is not settled another one is due.
  lemma RefreshesBoundFetches(es: seq<Event>, ss: seq<State>, n: nat, f: nat, k: nat)
    requires Run(es, ss) && n <= |es| && |ss| == |es| + 1 && f < |ss[n].frames| && Grants(ss[n], f) <= k
    ensures Fetches(ss[n], f) <= k + 1 && Refreshes(ss[n], f) <= k + 1
    ensures Fetches(ss[n], f) >= Grants(ss[n], f)
    ensures EventsOn(es, ss, n, f) <= 4 * (k + 1)
    ensures !IsSettled(ss[n], f) ==> exists g: nat :: BelongsTo(ss[n], f, g) && (AtNet(ss[n], g) || CanResume(ss[n], g))
  {
    RunKeepsInv(es, ss, n);
    EventsAreWork(es, ss, n, f);
    hide Path, Run, EventsOn, Inv, Work, Fetches, Grants, Refreshes;
    FetchesCounted(ss[n], f);
    WorkBounded(ss[n], f);
    if !IsSettled(ss[n], f) {
      var g := RequestIsLive(ss[n], f);
    }
  }

  function LastFetch(s: State, f: nat): nat
    decreases |s.frames| - f
  {
    if RetryOf(s, f).Some? then LastFetch(s, RetryOf(s, f).value) else f
  }

  // The last fetch of a request is retried, and nothing else of it changes.
  lemma {:induction false} OneMoreFetch(s: State, n: State, f: nat, y: nat)
    requires f < |s.frames| <= y < |n.frames| && LastFetch(s, f) < |s.frames|
    requires forall g :: 0 <= g < |s.frames| && g != LastFetch(s, f) ==> n.frames[g].retry == s.frames[g].retry
    requires n.frames[LastFetch(s, f)].retry == Some(y) && n.frames[y].retry == None
    requires forall g :: 0 <= g < |s.frames| && s.frames[g].retry.Some? ==> g < s.frames[g].retry.value < |s.frames|
    ensures Fetches(n, f) == Fetches(s, f) + 1 && LastFetch(n, f) == y
    decreases |s.frames| - f
  {
    if RetryOf(s, f).Some? {
      OneMoreFetch(s, n, RetryOf(s, f).value, y);
      LastIsLater(s, RetryOf(s, f).value);
      assert RetryOf(n, f) == RetryOf(s, f);
    } else {
      assert RetryOf(n, f) == Some(y) && RetryOf(n, y) == None;
    }
  }

  lemma {:induction false} LastIsLater(s: State, f: nat)
    ensures LastFetch(s, f) >= f && RetryOf(s, LastFetch(s, f)) == None
    ensures f < |s.frames| ==> LastFetch(s, f) < |s.frames|
    decreases |s.frames| - f
  {
    if RetryOf(s, f).Some? {
      LastIsLater(s, RetryOf(s, f).value);
    }
  }

  // A fetch is told 401, its refresh is granted, and it is retried.
  lemma RefreshedRound(s: State, x: nat) returns (es: seq<Event>, ss: seq<State>)
    requires Inv(s) && AtNet(s, x) && !s.frames[x].isRefresh
    ensures Path(es, ss, Direct) && ss[0] == s && Inv(ss[|es|])
    ensures var n, y := ss[|es|], |s.frames| + 1;
            && |n.frames| == |s.frames| + 2
            && (forall g :: 0 <= g < |s.frames| && g != x ==> n.frames[g] == s.frames[g])
            && n.frames[x].retry == Some(y) && n.frames[y] == Fresh(s.frames[x].url, s.frames[x].isGet, false, false)
  {
    var c := |s.frames|;
    var e1, e2, e3 := AnswerEvent(x, Expired, true), AnswerEvent(c, Value("token"), true), ResumeEvent(x);
    AnswerKeeps(s, x, Expired, true);
    var s1 := Next(s, e1, Direct);
    assert s1.frames == s.frames[x := s1.frames[x]] + [Fresh(REFRESH_URL, false, true, false)];
    AnswerKeeps(s1, c, Value("token"), true);
    var s2 := Next(s1, e2, Direct);
    assert s2.frames[x] == s1.frames[x] && CanResume(s2, x) && Granted(s2, c);
    ResumeKeeps(s2, x);
    var s3 := Next(s2, e3, Direct);
    hide Inv;
    es, ss := [e1, e2, e3], [s, s1, s2, s3];
  }

  lemma RetriesAreLater(s: State)
    requires Inv(s)
    ensures forall g :: 0 <= g < |s.frames| && s.frames[g].retry.Some? ==> g < s.frames[g].retry.value < |s.frames|
  {
    forall g | 0 <= g < |s.frames| && s.frames[g].retry.Some?
      ensures g < s.frames[g].retry.value < |s.frames|
    {
      assert FrameOk(s, g);
    }
  }

  lemma OneMoreRound(s: State) returns (es: seq<Event>, ss: seq<State>)
    requires Inv(s) && 0 < |s.frames| && AtNet(s, LastFetch(s, 0)) && !s.frames[LastFetch(s, 0)].isRefresh
    ensures Path(es, ss, Direct) && ss[0] == s && Inv(ss[|es|]) && |s.frames| < |ss[|es|].frames|
    ensures var n := ss[|es|];
            && Fetches(n, 0) == Fetches(s, 0) + 1
            && AtNet(n, LastFetch(n, 0)) && !n.frames[LastFetch(n, 0)].isRefresh
  {
    es, ss := RefreshedRound(s, LastFetch(s, 0));
    RetriesAreLater(s);
    hide Inv, Path, Fetches, LastFetch;
    OneMoreFetch(s, ss[|es|], 0, |s.frames| + 1);
  }

  // The code retries as long as refreshes are granted, not once: every number of fetches is possible.
  lemma {:induction false} RetriesAreUnbounded(k: nat) returns (es: seq<Event>, ss: seq<State>)
    ensures Run(es, ss) && Inv(ss[|es|])
    ensures var s := ss[|es|];
            0 < |s.frames| && Fetches(s, 0) == k + 1 && AtNet(s, LastFetch(s, 0)) && !s.frames[LastFetch(s, 0)].isRefresh
  {
    if k == 0 {
      var e := DoEvent("/me", true, false);
      es, ss := [e], [INITIAL, Next(INITIAL, e, Direct)];
      RunKeepsInv(es, ss, 1);
    } else {
      es, ss := RetriesAreUnbounded(k - 1);
      var more, states := OneMoreRound(ss[|es|]);
      hide Inv, AtNet, Fetches, LastFetch;
      JoinPaths(es, ss, more, states, Direct);
      es, ss := es + more, ss + states[1..];
    }
  }
}

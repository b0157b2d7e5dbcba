// What a request comes to, told by what the network answered: _performRequest's results and the lifetime of
// an entry in the in-flight map.
module RequestResults {
  import opened Options
  import opened GetCoalescing

  // The answer that call f was given, and whether a refresh token was stored then.
  function AnswerTo(es: seq<Event>, f: nat): Option<(Response, bool)> {
    if es == [] then None
    else
      var last := es[|es| - 1];
      if last.AnswerEvent? && last.frame == f then Some((last.response, last.hasToken)) else AnswerTo(es[..|es| - 1], f)
  }

  predicate ComesTo(s: State, f: nat, result: Response) {
    IsSettled(s, f) && s.frames[f].phase.result == result
  }

  // Call f, told by the answer it was given, if any.
  predicate Explained(s: State, f: nat, answer: Option<(Response, bool)>)
    requires f < |s.frames|
  {
    var frame := s.frames[f];
    && (AtNet(s, f) <==> answer == None)
    && (frame.refresh.Some? <==> answer == Some((Expired, true)) && !frame.isRefresh)
    && (frame.refresh.Some? ==>
          var c := frame.refresh.value;
          c < |s.frames| && s.frames[c].url == "/auth/refresh" && !s.frames[c].isGet && s.frames[c].isRefresh)
    && (IsSettled(s, f) && frame.retry == None ==>
          && frame.phase.result == (if answer.value.0 != Expired then answer.value.0 else Refused("http_401"))
          && (frame.refresh.Some? ==> IsSettled(s, frame.refresh.value) && !s.frames[frame.refresh.value].phase.result.Value?))
    && (IsSettled(s, f) && frame.retry.Some? ==> ComesTo(s, frame.retry.value, frame.phase.result))
  }

  // A call that a step leaves alone stays explained.
  lemma UntouchedExplained(s: State, n: State, f: nat, answer: Option<(Response, bool)>)
    requires f < |s.frames| && Explained(s, f, answer) && FrameOk(s, f) && Later(s, n)
    requires n.frames[f].phase == s.frames[f].phase && n.frames[f].refresh == s.frames[f].refresh && n.frames[f].retry == s.frames[f].retry
    ensures Explained(n, f, answer)
  {
    assert Grows(s.frames[f], n.frames[f]);
    if s.frames[f].refresh.Some? {
      assert Grows(s.frames[s.frames[f].refresh.value], n.frames[s.frames[f].refresh.value]);
    }
    if s.frames[f].retry.Some? {
      assert Grows(s.frames[s.frames[f].retry.value], n.frames[s.frames[f].retry.value]);
    }
  }

  lemma AnsweredExplained(s: State, f: nat, response: Response, hasToken: bool)
    requires Inv(s) && AtNet(s, f) && Explained(s, f, None)
    ensures var n := Answer(s, f, response, hasToken); f < |n.frames| && Explained(n, f, Some((response, hasToken)))
  {
    assert FrameOk(s, f);
    hide Inv;
  }

  lemma ResumedExplained(s: State, f: nat, answer: Option<(Response, bool)>)
    requires Inv(s) && CanResume(s, f) && Explained(s, f, answer)
    ensures var n := Resume(s, f, Direct); f < |n.frames| && Explained(n, f, answer)
  {
    assert FrameOk(s, f);
    hide Inv;
  }

  // The new calls are at the network, with no answer.
  lemma NewExplained(s: State, e: Event, f: nat)
    requires Inv(s) && Enabled(s, e) && |s.frames| <= f < |Next(s, e, Direct).frames|
    ensures Explained(Next(s, e, Direct), f, None)
  {
  }

  lemma TouchesOne(s: State, e: Event, f: nat)
    requires Inv(s) && Enabled(s, e) && f < |s.frames| && !StepOf(e, f)
    ensures var n := Next(s, e, Direct);
            |s.frames| <= |n.frames| &&
            n.frames[f].phase == s.frames[f].phase && n.frames[f].refresh == s.frames[f].refresh && n.frames[f].retry == s.frames[f].retry
  {
  }

  lemma StepExplained(s: State, e: Event, f: nat, answer: Option<(Response, bool)>)
    requires Inv(s) && Enabled(s, e) && f < |Next(s, e, Direct).frames|
    requires if f < |s.frames| then Explained(s, f, answer) else answer == None
    ensures Explained(Next(s, e, Direct), f,
                      if e.AnswerEvent? && e.frame == f then Some((e.response, e.hasToken)) else answer)
  {
    if f >= |s.frames| {
      NewExplained(s, e, f);
    } else if StepOf(e, f) {
      if e.AnswerEvent? {
        assert answer == None;
        hide Inv, Explained, Answer, Resume;
        AnsweredExplained(s, f, e.response, e.hasToken);
      } else {
        hide Inv, Explained, Answer, Resume;
        ResumedExplained(s, f, answer);
      }
    } else {
      assert FrameOk(s, f);
      StepPreserves(s, e);
      TouchesOne(s, e, f);
      hide Inv, Next, Later, Explained, FrameOk, Enabled;
      UntouchedExplained(s, Next(s, e, Direct), f, answer);
    }
  }

  // The n-th state explains call f by the first n events; before it is made it has no answer.
  predicate ExplainedAt(es: seq<Event>, s: State, f: nat) {
    if f < |s.frames| then Explained(s, f, AnswerTo(es, f)) else AnswerTo(es, f) == None
  }

  lemma ExplainedNext(es: seq<Event>, s: State, e: Event, f: nat)
    requires Inv(s) && Enabled(s, e) && ExplainedAt(es, s, f)
    ensures ExplainedAt(es + [e], Next(s, e, Direct), f)
  {
    assert (es + [e])[..|es + [e]| - 1] == es;
    assert e.AnswerEvent? ==> e.frame < |s.frames|;
    StepPreserves(s, e);
    assert |s.frames| <= |Next(s, e, Direct).frames|;
    hide Inv, Next, Explained, Enabled, Later;
    if f < |Next(s, e, Direct).frames| {
      StepExplained(s, e, f, AnswerTo(es, f));
    }
  }

  lemma {:induction false} RunExplains(es: seq<Event>, ss: seq<State>, n: nat, f: nat)
    requires Run(es, ss) && n <= |es| && |ss| == |es| + 1
    ensures ExplainedAt(es[..n], ss[n], f)
    decreases n
  {
    if n == 0 {
      assert es[..0] == [] && ss[0] == INITIAL;
    } else {
      PathStep(es, ss, Direct, n - 1);
      RunKeepsInv(es, ss, n - 1);
      hide Run, Path, Inv, Enabled, Next, ExplainedAt;
      RunExplains(es, ss, n - 1, f);
      ExplainedNext(es[..n - 1], ss[n - 1], es[n - 1], f);
      assert es[..n] == es[..n - 1] + [es[n - 1]];
    }
  }

  // In every run: a settled call that was not retried comes to what the network answered it, with a 401 as
  // the error http_401; it was not retried although a refresh was asked for only if the refresh brought no
  // token.  A settled call that was retried comes to what its retry came to.  And a refresh, a POST to
  // /auth/refresh, is asked for exactly on a 401 elsewhere while a refresh token is stored.
  lemma ResultsByHistory(es: seq<Event>, ss: seq<State>, n: nat, f: nat)
    requires Run(es, ss) && n <= |es| && |ss| == |es| + 1 && f < |ss[n].frames|
    ensures Explained(ss[n], f, AnswerTo(es[..n], f))
  {
    hide *;
    RunExplains(es, ss, n, f);
    ExplainedWhenMade(es[..n], ss[n], f);
  }

  lemma ExplainedWhenMade(es: seq<Event>, s: State, f: nat)
    requires f < |s.frames| && ExplainedAt(es, s, f)
    ensures Explained(s, f, AnswerTo(es, f))
  {
  }

  // The value a request comes to, from the answer its last fetch was given.
  function Outcome(answer: Option<(Response, bool)>): Option<Response> {
    match answer
    case None => None
    case Some((response, _)) => Some(if response == Expired then Refused("http_401") else response)
  }

  // Hence a request comes to what its last fetch was answered.
  lemma {:induction false} RequestComesToItsLastAnswer(es: seq<Event>, ss: seq<State>, n: nat, f: nat)
    requires Run(es, ss) && n <= |es| && |ss| == |es| + 1 && IsSettled(ss[n], f)
    ensures Outcome(AnswerTo(es[..n], LastFetch(ss[n], f))) == Some(ss[n].frames[f].phase.result)
    decreases |ss[n].frames| - f
  {
    ResultsByHistory(es, ss, n, f);
    RunKeepsInv(es, ss, n);
    assert FrameOk(ss[n], f);
    hide Run, Path, Inv;
    if ss[n].frames[f].retry.Some? {
      assert RetryOf(ss[n], f) == ss[n].frames[f].retry;
      RequestComesToItsLastAnswer(es, ss, n, ss[n].frames[f].retry.value);
    }
  }

  // ---------------------------------------------------------------------------
  // How long a GET is shared
  // ---------------------------------------------------------------------------

  lemma EntryStep(s: State, e: Event, f: nat)
    requires Inv(s) && Enabled(s, e) && f < |s.frames|
    ensures InFlight(Next(s, e, Direct), f) <==> InFlight(s, f) && e != FinallyEvent(f)
  {
    if e.FinallyEvent? && e.frame == f {
    } else {
      StepPreserves(s, e);
    }
  }

  lemma EntryRunStep(es: seq<Event>, ss: seq<State>, k: nat, f: nat)
    requires Run(es, ss) && k < |es| && |ss| == |es| + 1 && f < |ss[k].frames|
    ensures f < |ss[k + 1].frames|
    ensures InFlight(ss[k + 1], f) <==> InFlight(ss[k], f) && es[k] != FinallyEvent(f)
  {
    RunKeepsInv(es, ss, k);
    RunIsLater(es, ss, k, k + 1);
    PathStep(es, ss, Direct, k);
    hide Run, Path, Inv, Enabled, Next;
    EntryStep(ss[k], es[k], f);
  }

  lemma {:induction false} EntryLasts(es: seq<Event>, ss: seq<State>, a: nat, b: nat, f: nat)
    requires Run(es, ss) && a <= b <= |es| && |ss| == |es| + 1 && f < |ss[a].frames| && InFlight(ss[a], f)
    ensures f < |ss[b].frames|
    ensures InFlight(ss[b], f) <==> forall c :: a <= c < b ==> es[c] != FinallyEvent(f)
    decreases b
  {
    hide *;
    if a < b {
      EntryLasts(es, ss, a, b - 1, f);
      EntryRunStep(es, ss, b - 1, f);
    }
  }

  lemma GetIsEntered(s: State, url: string, isRefresh: bool)
    requires Inv(s)
    ensures var (n, f) := DoRequest(s, url, true, isRefresh); InFlight(n, f) && n.frames[f].url == url
  {
  }

  // In every run, a GET of the same URL is handed the promise of an earlier one exactly until the clean-up
  // of that one has run, which is after it settled.
  lemma SharedUntilCleanUp(es: seq<Event>, ss: seq<State>, a: nat, b: nat, url: string, isRefresh: bool)
    requires Run(es, ss) && a < b <= |es| && |ss| == |es| + 1 && es[a] == DoEvent(url, true, isRefresh)
    ensures var f := DoRequest(ss[a], url, true, isRefresh).1;
            && (DoRequest(ss[b], url, true, isRefresh).1 == f <==> forall c :: a < c < b ==> es[c] != FinallyEvent(f))
            && (forall c :: a < c < b && es[c] == FinallyEvent(f) ==> IsSettled(ss[c], f))
  {
    var f := DoRequest(ss[a], url, true, isRefresh).1;
    PathStep(es, ss, Direct, a);
    RunKeepsInv(es, ss, a);
    GetIsEntered(ss[a], url, isRefresh);
    assert InFlight(ss[a + 1], f);
    JoinersShareTheResult(es, ss, a, b, b, url, isRefresh);
    forall c | a < c < b && es[c] == FinallyEvent(f)
      ensures IsSettled(ss[c], f)
    {
      PathStep(es, ss, Direct, c);
    }
    hide Run, Path, Inv, DoRequest, Next, Enabled;
    EntryLasts(es, ss, a + 1, b, f);
  }
}

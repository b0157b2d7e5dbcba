// The short-TTL promise cache of api.ts: cached(), mutation invalidation and logout.
module TtlCache {
  import opened Options

  // ---------------------------------------------------------------------------
  // Which mutations drop which keys
  // ---------------------------------------------------------------------------

  predicate OccursAt(s: string, w: string, i: nat) {
    i + |w| <= |s| && s[i..i + |w|] == w
  }

  function LowerChar(c: char): char {
    if 'A' <= c <= 'Z' then (c as int + 32) as char else c
  }

  function Lower(s: string): string {
    if s == "" then "" else [LowerChar(s[0])] + Lower(s[1..])
  }

  predicate IsWordChar(c: char) {
    'a' <= c <= 'z' || 'A' <= c <= 'Z' || '0' <= c <= '9' || c == '_'
  }

  const MOUNTS := {"orders", "paper", "workflows", "strategies", "baskets", "views", "ipo"}
  const TOPICS := {"portfolio", "paper", "holdings", "summary", "performance", "scores"}

  // A slash, one of the mounts, and a word boundary.
  predicate MutatesPortfolio(path: string) {
    exists w, i: nat :: w in MOUNTS && i < |path| && OccursAt(path, "/" + w, i) &&
      (i + 1 + |w| == |path| || !IsWordChar(path[i + 1 + |w|]))
  }

  predicate PortfolioLike(key: string) {
    exists w, i: nat :: w in TOPICS && i < |key| && OccursAt(Lower(key), w, i)
  }

  // The mounts and topics, in words.
  predicate IsMount(w: string) {
    w == "orders" || w == "paper" || w == "workflows" || w == "strategies" || w == "baskets" || w == "views" || w == "ipo"
  }

  predicate IsTopic(w: string) {
    w == "portfolio" || w == "paper" || w == "holdings" || w == "summary" || w == "performance" || w == "scores"
  }

  lemma WordsAre(w: string)
    ensures w in MOUNTS <==> IsMount(w)
    ensures w in TOPICS <==> IsTopic(w)
  {
  }

  lemma TopicsAreLowerCase(w: string)
    requires IsTopic(w)
    ensures LowerCase(w) && w != ""
  {
  }

  lemma CutOut(s: string, w: string, i: nat)
    requires OccursAt(s, w, i)
    ensures s == s[..i] + w + s[i + |w|..]
  {
  }

  lemma PutIn(before: string, w: string, after: string)
    ensures OccursAt(before + w + after, w, |before|)
    ensures (before + w + after)[|before| + |w|..] == after
  {
    var s := before + w + after;
    assert s[|before|..|before| + |w|] == w;
  }

  // The text goes on with a word character.
  predicate GoesOn(rest: string) {
    rest != "" && ('a' <= rest[0] <= 'z' || 'A' <= rest[0] <= 'Z' || '0' <= rest[0] <= '9' || rest[0] == '_')
  }

  // Something, a slash, a mount, and then not more of a word.
  predicate MountIn(path: string, before: string, w: string, after: string) {
    IsMount(w) && !GoesOn(after) && path == before + ("/" + w) + after
  }

  lemma MountOf(path: string, w: string, i: nat)
    requires IsMount(w) && OccursAt(path, "/" + w, i) && (i + 1 + |w| == |path| || !IsWordChar(path[i + 1 + |w|]))
    ensures MountIn(path, path[..i], w, path[i + 1 + |w|..])
  {
    hide IsMount;
    CutOut(path, "/" + w, i);
    assert |"/" + w| == 1 + |w|;
  }

  lemma OfMount(path: string, before: string, w: string, after: string)
    requires MountIn(path, before, w, after)
    ensures MutatesPortfolio(path)
  {
    WordsAre(w);
    hide IsMount;
    var i := |before|;
    PutIn(before, "/" + w, after);
    assert |path| == i + 1 + |w| + |after|;
    assert after != "" ==> path[i + 1 + |w|] == after[0];
    hide OccursAt;
    assert w in MOUNTS && i < |path| && OccursAt(path, "/" + w, i) && (i + 1 + |w| == |path| || !IsWordChar(path[i + 1 + |w|]));
  }

  // Which paths mutate the portfolio.
  lemma MutatesIff(path: string)
    ensures MutatesPortfolio(path) <==> exists before: string, w: string, after: string :: MountIn(path, before, w, after)
  {
    if MutatesPortfolio(path) {
      hide MountIn;
      var w, i: nat :| w in MOUNTS && i < |path| && OccursAt(path, "/" + w, i) &&
        (i + 1 + |w| == |path| || !IsWordChar(path[i + 1 + |w|]));
      WordsAre(w);
      MountOf(path, w, i);
    }
    if before, w, after: string :| MountIn(path, before, w, after) {
      hide *;
      OfMount(path, before, w, after);
    }
  }

  lemma {:induction false} LowerAt(s: string)
    ensures |Lower(s)| == |s| && forall i :: 0 <= i < |s| ==> Lower(s)[i] == LowerChar(s[i])
  {
    if s != "" {
      LowerAt(s[1..]);
    }
  }

  lemma {:induction false} LowerJoin(a: string, b: string)
    ensures Lower(a + b) == Lower(a) + Lower(b)
  {
    if a == "" {
      assert a + b == b;
    } else {
      assert (a + b)[1..] == a[1..] + b;
      LowerJoin(a[1..], b);
    }
  }

  lemma LowerSlice(s: string, i: nat, n: nat)
    requires i + n <= |s|
    ensures i + n <= |Lower(s)| && Lower(s[i..i + n]) == Lower(s)[i..i + n]
  {
    Cut(s, i, n);
    LowerJoin(s[..i] + s[i..i + n], s[i + n..]);
    LowerJoin(s[..i], s[i..i + n]);
    LowerAt(s[..i]);
    LowerAt(s[i..i + n]);
  }

  lemma Cut(s: string, i: nat, n: nat)
    requires i + n <= |s|
    ensures s == s[..i] + s[i..i + n] + s[i + n..]
  {
  }

  // Two texts that differ at most in the case of ASCII letters.
  predicate SameButCase(a: string, b: string) {
    |a| == |b| && forall i :: 0 <= i < |a| ==>
      a[i] == b[i] || ('A' <= a[i] <= 'Z' && b[i] as int == a[i] as int + 32) || ('A' <= b[i] <= 'Z' && a[i] as int == b[i] as int + 32)
  }

  predicate LowerCase(w: string) {
    forall i :: 0 <= i < |w| ==> 'a' <= w[i] <= 'z'
  }

  lemma LowerIsSameButCase(a: string, w: string)
    requires LowerCase(w)
    ensures Lower(a) == w <==> SameButCase(a, w)
  {
    LowerAt(a);
    hide Lower;
    if SameButCase(a, w) {
      forall i | 0 <= i < |a|
        ensures Lower(a)[i] == w[i]
      {
      }
    }
  }

  // Something, one of the topics in any case, something.
  predicate TopicIn(key: string, before: string, part: string, after: string, w: string) {
    IsTopic(w) && SameButCase(part, w) && key == before + part + after
  }

  lemma PartOf(key: string, w: string, i: nat)
    requires LowerCase(w) && OccursAt(Lower(key), w, i)
    ensures i + |w| <= |key| && SameButCase(key[i..i + |w|], w) && key == key[..i] + key[i..i + |w|] + key[i + |w|..]
  {
    hide LowerCase, SameButCase, Lower;
    assert |Lower(key)| == |key| by { LowerAt(key); }
    LowerSlice(key, i, |w|);
    LowerIsSameButCase(key[i..i + |w|], w);
    Cut(key, i, |w|);
  }

  lemma TopicOf(key: string, w: string, i: nat)
    requires IsTopic(w) && OccursAt(Lower(key), w, i)
    ensures i + |w| <= |key| && TopicIn(key, key[..i], key[i..i + |w|], key[i + |w|..], w)
  {
    TopicsAreLowerCase(w);
    hide IsTopic, LowerCase, SameButCase, Lower, OccursAt;
    PartOf(key, w, i);
  }

  lemma OfTopic(key: string, before: string, part: string, after: string, w: string)
    requires TopicIn(key, before, part, after, w)
    ensures PortfolioLike(key)
  {
    hide IsTopic, LowerCase, Lower, SameButCase, OccursAt;
    WordsAre(w);
    TopicsAreLowerCase(w);
    LowerIsSameButCase(part, w);
    LowerJoin(before + part, after);
    LowerJoin(before, part);
    PutIn(Lower(before), w, Lower(after));
    LowerAt(before);
    LowerAt(part);
    assert w in TOPICS && |before| < |key| && OccursAt(Lower(key), w, |before|);
  }

  // Which keys count as the portfolio's.
  lemma PortfolioLikeIff(key: string)
    ensures PortfolioLike(key) <==>
              exists before: string, part: string, after: string, w: string :: TopicIn(key, before, part, after, w)
  {
    if PortfolioLike(key) {
      hide TopicIn, OccursAt, Lower;
      var w, i: nat :| w in TOPICS && i < |key| && OccursAt(Lower(key), w, i);
      WordsAre(w);
      TopicOf(key, w, i);
    }
    if before, part, after, w: string :| TopicIn(key, before, part, after, w) {
      hide *;
      OfTopic(key, before, part, after, w);
    }
  }

  // ---------------------------------------------------------------------------
  // State and events
  // ---------------------------------------------------------------------------

  datatype Outcome = Pending | Fulfilled | Failed

  // `born` is the number of events before the call that made the promise.
  datatype Fetch = Fetch(key: string, started: int, ttl: int, born: nat, outcome: Outcome, handled: bool)

  datatype Entry = Entry(expiresAt: int, fetch: nat)

  datatype State = State(now: int, cache: map<string, Entry>, fetches: seq<Fetch>, steps: nat)

  // SettleEvent is the promise settling, HandleEvent the reaction to it, a later microtask.
  // MutationEvent is a mutation that succeeded, LogoutEvent the end of logoutUser.
  datatype Event =
    | CallEvent(key: string, ttl: int)
    | SettleEvent(fetch: nat, failed: bool)
    | HandleEvent(fetch: nat)
    | MutationEvent(path: string)
    | LogoutEvent
    | TickEvent(elapsed: nat)

  function Initial(now: int): State {
    State(now, map[], [], 0)
  }

  predicate Enabled(s: State, e: Event) {
    match e
    case SettleEvent(f, _) => f < |s.fetches| && s.fetches[f].outcome == Pending
    case HandleEvent(f) => f < |s.fetches| && s.fetches[f].outcome != Pending && !s.fetches[f].handled
    case _ => true
  }

  // The promise a call would be handed without fetching.
  function Lookup(s: State, key: string): Option<nat> {
    if key in s.cache && s.cache[key].expiresAt > s.now then Some(s.cache[key].fetch) else None
  }

  function Cached(s: State, key: string, ttl: int): (State, nat) {
    if Lookup(s, key).Some? then (s, Lookup(s, key).value)
    else (s.(fetches := s.fetches + [Fetch(key, s.now, ttl, s.steps, Pending, false)],
             cache := s.cache[key := Entry(s.now + ttl, |s.fetches|)]), |s.fetches|)
  }

  function WithoutPortfolio(cache: map<string, Entry>): map<string, Entry> {
    map k | k in cache && !PortfolioLike(k) :: cache[k]
  }

  function Handle(s: State, f: nat): State
    requires f < |s.fetches|
  {
    var h := s.(fetches := s.fetches[f := s.fetches[f].(handled := true)]);
    if s.fetches[f].outcome == Failed then h.(cache := s.cache - {s.fetches[f].key}) else h
  }

  function Effect(s: State, e: Event): State
    requires Enabled(s, e)
  {
    match e
    case CallEvent(key, ttl) => Cached(s, key, ttl).0
    case SettleEvent(f, failed) =>
      s.(fetches := s.fetches[f := s.fetches[f].(outcome := if failed then Failed else Fulfilled)])
    case HandleEvent(f) => Handle(s, f)
    case MutationEvent(path) => if MutatesPortfolio(path) then s.(cache := WithoutPortfolio(s.cache)) else s
    case LogoutEvent => s.(cache := map[])
    case TickEvent(elapsed) => s.(now := s.now + elapsed)
  }

  function Next(s: State, e: Event): State
    requires Enabled(s, e)
  {
    Effect(s, e).(steps := s.steps + 1)
  }

  ghost predicate Run(es: seq<Event>, ss: seq<State>) {
    && |ss| == |es| + 1
    && ss[0] == Initial(ss[0].now)
    && forall i :: 0 <= i < |es| ==> Enabled(ss[i], es[i]) && ss[i + 1] == Next(ss[i], es[i])
  }

  // ---------------------------------------------------------------------------
  // The reference: when is a promise of the past still good for a key?
  // ---------------------------------------------------------------------------

  // The event ends the life of every earlier promise for the key: a failure for the key is handled,
  // a logout, a relevant mutation, or a call that had to fetch again.
  predicate Ends(s: State, e: Event, key: string) {
    match e
    case CallEvent(k, _) => k == key && Lookup(s, k) == None
    case HandleEvent(f) => f < |s.fetches| && s.fetches[f].key == key && s.fetches[f].outcome == Failed
    case MutationEvent(path) => MutatesPortfolio(path) && PortfolioLike(key)
    case LogoutEvent => true
    case _ => false
  }

  // Fetch f was made for the key, and nothing ended its life since, up to state n.
  ghost predicate Alive(es: seq<Event>, ss: seq<State>, n: nat, key: string, f: nat)
    requires |ss| == |es| + 1 && n < |ss|
  {
    && f < |ss[n].fetches|
    && ss[n].fetches[f].key == key
    && forall j :: ss[n].fetches[f].born < j < n ==> !Ends(ss[j], es[j], key)
  }

  ghost predicate Good(s: State) {
    && (forall k :: k in s.cache ==>
          && s.cache[k].fetch < |s.fetches|
          && s.fetches[s.cache[k].fetch].key == k
          && s.cache[k].expiresAt == s.fetches[s.cache[k].fetch].started + s.fetches[s.cache[k].fetch].ttl)
    && (forall f :: 0 <= f < |s.fetches| ==> s.fetches[f].born < s.steps && s.fetches[f].started <= s.now)
  }

  lemma StepGood(s: State, e: Event)
    requires Good(s) && Enabled(s, e)
    ensures Good(Next(s, e))
  {
  }

  lemma {:induction false} RunGood(es: seq<Event>, ss: seq<State>, n: nat)
    requires Run(es, ss) && n < |ss|
    ensures Good(ss[n]) && ss[n].steps == n
  {
    if n > 0 {
      RunGood(es, ss, n - 1);
      StepGood(ss[n - 1], es[n - 1]);
    }
  }

  // Fetches keep their identity; a call that fetches adds one, born in that very step.
  lemma StepFetches(s: State, e: Event)
    requires Enabled(s, e)
    ensures var n := Next(s, e);
            && |s.fetches| <= |n.fetches|
            && (forall f :: 0 <= f < |s.fetches| ==> n.fetches[f].key == s.fetches[f].key && n.fetches[f].born == s.fetches[f].born)
            && (forall f :: |s.fetches| <= f < |n.fetches| ==>
                  f == |s.fetches| && e.CallEvent? && Lookup(s, e.key) == None
                  && n.fetches[f].key == e.key && n.fetches[f].born == s.steps)
  {
  }

  // One step of "the cache maps the key to f".
  lemma StepCache(s: State, e: Event, key: string, f: nat)
    requires Good(s) && Enabled(s, e)
    ensures var n := Next(s, e);
            (key in n.cache && n.cache[key].fetch == f) <==>
              if Ends(s, e, key) then e.CallEvent? && f == |s.fetches|
              else key in s.cache && s.cache[key].fetch == f
  {
  }

  // The cache holds f for the key exactly when f is still alive.
  lemma {:induction false} CacheIsAlive(es: seq<Event>, ss: seq<State>, n: nat, key: string, f: nat)
    requires Run(es, ss) && n < |ss|
    ensures (key in ss[n].cache && ss[n].cache[key].fetch == f) <==> Alive(es, ss, n, key, f)
  {
    if n > 0 {
      CacheIsAlive(es, ss, n - 1, key, f);
      RunGood(es, ss, n - 1);
      RunGood(es, ss, n);
      StepFetches(ss[n - 1], es[n - 1]);
      StepCache(ss[n - 1], es[n - 1], key, f);
      AliveStep(es, ss, n, key, f);
    }
  }

  lemma AliveStep(es: seq<Event>, ss: seq<State>, n: nat, key: string, f: nat)
    requires Run(es, ss) && 0 < n < |ss| && Good(ss[n - 1]) && ss[n - 1].steps == n - 1
    ensures Alive(es, ss, n, key, f) <==>
              if Ends(ss[n - 1], es[n - 1], key) then es[n - 1].CallEvent? && f == |ss[n - 1].fetches|
              else Alive(es, ss, n - 1, key, f)
  {
    StepFetches(ss[n - 1], es[n - 1]);
    hide Next, Ends;
    var s, m := ss[n - 1], ss[n];
    if f < |s.fetches| {
      assert m.fetches[f].born == s.fetches[f].born < n - 1;
    } else if f < |m.fetches| {
      assert m.fetches[f].born == n - 1;
      FetchingCallEnds(s, es[n - 1]);
    } else {
      FetchingCallEnds(s, es[n - 1]);
    }
    assert Ends(s, es[n - 1], key) && es[n - 1].CallEvent? ==> es[n - 1].key == key && Lookup(s, key) == None by {
      FetchingCallEnds(s, es[n - 1]);
    }
  }

  lemma FetchingCallEnds(s: State, e: Event)
    requires Enabled(s, e)
    ensures forall key :: e.CallEvent? ==> (Ends(s, e, key) <==> e.key == key && Lookup(s, key) == None)
    ensures e.CallEvent? && Lookup(s, e.key) == None ==>
              |Next(s, e).fetches| == |s.fetches| + 1 && Next(s, e).fetches[|s.fetches|].key == e.key
  {
  }

  // ---------------------------------------------------------------------------
  // Theorems about every interleaving
  // ---------------------------------------------------------------------------

  // A call is handed an earlier promise exactly when that promise was made for the key less than its
  // TTL ago and nothing ended its life since; otherwise it fetches.
  lemma CallsReuseExactlyTheLiving(es: seq<Event>, ss: seq<State>, n: nat, key: string, ttl: int, f: nat)
    requires Run(es, ss) && n < |ss|
    ensures Cached(ss[n], key, ttl).1 == f && f < |ss[n].fetches| <==>
              Alive(es, ss, n, key, f) && ss[n].now < ss[n].fetches[f].started + ss[n].fetches[f].ttl
    ensures Cached(ss[n], key, ttl).1 >= |ss[n].fetches| ==>
              Cached(ss[n], key, ttl).0.fetches == ss[n].fetches + [Fetch(key, ss[n].now, ttl, ss[n].steps, Pending, false)]
  {
    RunGood(es, ss, n);
    CacheIsAlive(es, ss, n, key, f);
  }

  // Hence no call returns a promise that is expired, whose failure was processed, that predates the last
  // logout or, for a portfolio key, the last relevant mutation.
  lemma CallsNeverReturnStale(es: seq<Event>, ss: seq<State>, n: nat, key: string, ttl: int)
    requires Run(es, ss) && n < |ss|
    ensures var (s, f) := Cached(ss[n], key, ttl);
            && f < |s.fetches| && s.fetches[f].key == key
            && (ttl > 0 ==> ss[n].now < s.fetches[f].started + s.fetches[f].ttl)
            && !(s.fetches[f].handled && s.fetches[f].outcome == Failed)
            && forall j :: s.fetches[f].born < j < n ==>
                 && es[j] != LogoutEvent
                 && !(PortfolioLike(key) && es[j].MutationEvent? && MutatesPortfolio(es[j].path))
  {
    var (s, f) := Cached(ss[n], key, ttl);
    RunGood(es, ss, n);
    if f < |ss[n].fetches| {
      CallsReuseExactlyTheLiving(es, ss, n, key, ttl, f);
      if s.fetches[f].handled && s.fetches[f].outcome == Failed {
        HandledFailureEnds(es, ss, n, f);
      }
      forall j | s.fetches[f].born < j < n
        ensures es[j] != LogoutEvent
        ensures !(PortfolioLike(key) && es[j].MutationEvent? && MutatesPortfolio(es[j].path))
      {
        assert !Ends(ss[j], es[j], key);
      }
    }
  }

  lemma {:induction false} HandledFailureEnds(es: seq<Event>, ss: seq<State>, n: nat, f: nat)
    requires Run(es, ss) && n < |ss| && f < |ss[n].fetches|
    requires ss[n].fetches[f].handled && ss[n].fetches[f].outcome == Failed
    ensures !Alive(es, ss, n, ss[n].fetches[f].key, f)
  {
    assert n > 0;
    RunGood(es, ss, n - 1);
    StepFetches(ss[n - 1], es[n - 1]);
    var key, s, e := ss[n].fetches[f].key, ss[n - 1], es[n - 1];
    assert f < |s.fetches|;
    if s.fetches[f].handled && s.fetches[f].outcome == Failed {
      HandledFailureEnds(es, ss, n - 1, f);
      AliveStep(es, ss, n, key, f);
    } else {
      assert e == HandleEvent(f) || (e.SettleEvent? && e.fetch == f);
      NoHandledPending(es, ss, n - 1);
      AliveStep(es, ss, n, key, f);
    }
  }

  lemma {:induction false} NoHandledPending(es: seq<Event>, ss: seq<State>, n: nat)
    requires Run(es, ss) && n < |ss|
    ensures forall f :: 0 <= f < |ss[n].fetches| && ss[n].fetches[f].handled ==> ss[n].fetches[f].outcome != Pending
  {
    if n > 0 {
      NoHandledPending(es, ss, n - 1);
      NoHandledPendingStep(ss[n - 1], es[n - 1]);
    }
  }

  lemma NoHandledPendingStep(s: State, e: Event)
    requires Enabled(s, e)
    requires forall f :: 0 <= f < |s.fetches| && s.fetches[f].handled ==> s.fetches[f].outcome != Pending
    ensures var n := Next(s, e);
            forall f :: 0 <= f < |n.fetches| && n.fetches[f].handled ==> n.fetches[f].outcome != Pending
  {
  }

  // ---------------------------------------------------------------------------
  // What is recorded of a promise
  // ---------------------------------------------------------------------------

  // Promise f, by the events: the call that made it, how it settled, and whether that was processed.
  ghost predicate Recorded(es: seq<Event>, ss: seq<State>, n: nat, f: nat)
    requires |ss| == |es| + 1 && n < |ss| && f < |ss[n].fetches|
  {
    var p := ss[n].fetches[f];
    && p.born < n && es[p.born] == CallEvent(p.key, p.ttl) && p.started == ss[p.born].now
    && (p.outcome == Failed <==> SettleEvent(f, true) in es[..n])
    && (p.outcome == Fulfilled <==> SettleEvent(f, false) in es[..n])
    && (p.handled <==> HandleEvent(f) in es[..n])
  }

  predicate Concerns(e: Event, f: nat) {
    (e.SettleEvent? && e.fetch == f) || e == HandleEvent(f)
  }

  predicate Unheard(es: seq<Event>, f: nat) {
    forall i :: 0 <= i < |es| ==> !Concerns(es[i], f)
  }

  ghost predicate RecordedAt(es: seq<Event>, ss: seq<State>, n: nat, f: nat)
    requires |ss| == |es| + 1 && n < |ss|
  {
    if f < |ss[n].fetches| then Recorded(es, ss, n, f) else Unheard(es[..n], f)
  }

  lemma StepRecords(s: State, e: Event, f: nat)
    requires Enabled(s, e)
    ensures var n := Next(s, e);
            && |s.fetches| <= |n.fetches|
            && (f < |s.fetches| ==>
                  && n.fetches[f].key == s.fetches[f].key && n.fetches[f].ttl == s.fetches[f].ttl
                  && n.fetches[f].born == s.fetches[f].born && n.fetches[f].started == s.fetches[f].started
                  && (n.fetches[f].outcome == Failed <==> s.fetches[f].outcome == Failed || e == SettleEvent(f, true))
                  && (n.fetches[f].outcome == Fulfilled <==> s.fetches[f].outcome == Fulfilled || e == SettleEvent(f, false))
                  && (n.fetches[f].handled <==> s.fetches[f].handled || e == HandleEvent(f)))
            && (|s.fetches| <= f < |n.fetches| ==>
                  e.CallEvent? && n.fetches[f] == Fetch(e.key, s.now, e.ttl, s.steps, Pending, false))
            && (f >= |n.fetches| ==> !Concerns(e, f))
            && (f >= |s.fetches| && e.CallEvent? ==> !Concerns(e, f))
  {
  }

  lemma NthStep(es: seq<Event>, ss: seq<State>, n: nat)
    requires Run(es, ss) && n < |es|
    ensures |ss| == |es| + 1 && Enabled(ss[n], es[n]) && ss[n + 1] == Next(ss[n], es[n])
  {
    hide Enabled, Next;
  }

  lemma UnheardSettles(es: seq<Event>, f: nat)
    requires Unheard(es, f)
    ensures SettleEvent(f, true) !in es && SettleEvent(f, false) !in es && HandleEvent(f) !in es
  {
    assert forall e :: Concerns(e, f) ==> e !in es;
  }

  lemma RecordedStep(es: seq<Event>, ss: seq<State>, n: nat, f: nat)
    requires Run(es, ss) && n < |es| && |ss| == |es| + 1 && RecordedAt(es, ss, n, f) && ss[n].steps == n
    ensures RecordedAt(es, ss, n + 1, f)
  {
    NthStep(es, ss, n);
    StepRecords(ss[n], es[n], f);
    hide Run, Next, Enabled;
    assert es[..n + 1] == es[..n] + [es[n]];
    if f >= |ss[n].fetches| {
      UnheardSettles(es[..n], f);
    }
  }

  // In every run the record of a promise is what happened.
  lemma {:induction false} RecordsAreHistory(es: seq<Event>, ss: seq<State>, n: nat, f: nat)
    requires Run(es, ss) && n <= |es| && |ss| == |es| + 1 && f < |ss[n].fetches|
    ensures Recorded(es, ss, n, f)
  {
    RunRecords(es, ss, n, f);
  }

  lemma {:induction false} RunRecords(es: seq<Event>, ss: seq<State>, n: nat, f: nat)
    requires Run(es, ss) && n <= |es| && |ss| == |es| + 1
    ensures RecordedAt(es, ss, n, f)
    decreases n
  {
    if n == 0 {
      assert ss[0].fetches == [];
    } else {
      RunRecords(es, ss, n - 1, f);
      RunGood(es, ss, n - 1);
      hide Run, RecordedAt;
      RecordedStep(es, ss, n - 1, f);
    }
  }

  function Elapsed(es: seq<Event>): nat {
    if es == [] then 0
    else Elapsed(es[..|es| - 1]) + if es[|es| - 1].TickEvent? then es[|es| - 1].elapsed else 0
  }

  // And the clock shows the time that has passed.
  lemma {:induction false} ClockIsElapsed(es: seq<Event>, ss: seq<State>, n: nat)
    requires Run(es, ss) && n <= |es| && |ss| == |es| + 1
    ensures ss[n].now == ss[0].now + Elapsed(es[..n])
  {
    if n > 0 {
      ClockIsElapsed(es, ss, n - 1);
      NthStep(es, ss, n - 1);
      hide Run;
      assert es[..n][..n - 1] == es[..n - 1];
    }
  }
}

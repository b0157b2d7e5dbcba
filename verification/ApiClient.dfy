// The two maps of api.ts as fields that the request functions update in place.
module ApiClient {
  import opened Options
  import TtlCache
  import GetCoalescing

  // `_ttlCache`, with the promises made so far and a step counter for the record.
  class ResponseCache {
    var now: int
    var ttlCache: map<string, TtlCache.Entry>
    var fetches: seq<TtlCache.Fetch>
    var steps: nat

    ghost function Abs(): TtlCache.State
      reads this
    {
      TtlCache.State(now, ttlCache, fetches, steps)
    }

    constructor (now: int)
      ensures Abs() == TtlCache.Initial(now)
    {
      this.now := now;
      ttlCache, fetches, steps := map[], [], 0;
    }

    method Cached(key: string, ttlMs: int) returns (value: nat)
      modifies this
      ensures value == TtlCache.Cached(old(Abs()), key, ttlMs).1
      ensures Abs() == TtlCache.Next(old(Abs()), TtlCache.CallEvent(key, ttlMs))
    {
      var born := steps;
      steps := steps + 1;
      if key in ttlCache && ttlCache[key].expiresAt > now {
        return ttlCache[key].fetch;
      }
      value := |fetches|;
      fetches := fetches + [TtlCache.Fetch(key, now, ttlMs, born, TtlCache.Pending, false)];
      ttlCache := ttlCache[key := TtlCache.Entry(now + ttlMs, value)];
    }

    // The reaction cached() registers on the promise: a failure drops the key.
    method OnSettled(fetch: nat)
      requires TtlCache.Enabled(Abs(), TtlCache.HandleEvent(fetch))
      modifies this
      ensures Abs() == TtlCache.Next(old(Abs()), TtlCache.HandleEvent(fetch))
    {
      var f := fetches[fetch];
      fetches := fetches[fetch := f.(handled := true)];
      if f.outcome == TtlCache.Failed {
        ttlCache := ttlCache - {f.key};
      }
      steps := steps + 1;
    }

    // Walks over a copy of the keys and deletes the portfolio-like ones.
    method NotifyPortfolioMutation(path: string)
      modifies this
      ensures Abs() == TtlCache.Next(old(Abs()), TtlCache.MutationEvent(path))
    {
      steps := steps + 1;
      if !TtlCache.MutatesPortfolio(path) {
        return;
      }
      ghost var before := ttlCache;
      var keys := ttlCache.Keys;
      while keys != {}
        invariant keys <= before.Keys
        invariant ttlCache == map k | k in before && (k in keys || !TtlCache.PortfolioLike(k)) :: before[k]
        invariant now == old(now) && fetches == old(fetches) && steps == old(steps) + 1
        decreases keys
      {
        var key :| key in keys;
        if TtlCache.PortfolioLike(key) {
          ttlCache := ttlCache - {key};
        }
        keys := keys - {key};
      }
    }

    method DropOnLogout()
      modifies this
      ensures Abs() == TtlCache.Next(old(Abs()), TtlCache.LogoutEvent)
    {
      ttlCache := map[];
      steps := steps + 1;
    }
  }

  // `_inflightGets`, with the calls of _performRequest made so far.
  class RequestLayer {
    var inflightGets: map<string, nat>
    var frames: seq<GetCoalescing.Frame>

    ghost function Abs(): GetCoalescing.State
      reads this
    {
      GetCoalescing.State(inflightGets, frames)
    }

    ghost predicate Valid()
      reads this
    {
      GetCoalescing.Inv(Abs())
    }

    constructor ()
      ensures Valid() && Abs() == GetCoalescing.INITIAL
    {
      inflightGets, frames := map[], [];
    }

    method PerformRequest(url: string, isGet: bool, isRefresh: bool, shared: bool) returns (frame: nat)
      modifies `frames
      ensures (Abs(), frame) == GetCoalescing.Perform(old(Abs()), url, isGet, isRefresh, shared)
    {
      frame := |frames|;
      frames := frames + [GetCoalescing.Fresh(url, isGet, isRefresh, shared)];
    }

    method DoRequest(url: string, isGet: bool, isRefresh: bool) returns (frame: nat)
      requires Valid()
      modifies this
      ensures Valid() && Abs() == GetCoalescing.Next(old(Abs()), GetCoalescing.DoEvent(url, isGet, isRefresh), GetCoalescing.Direct)
      ensures (Abs(), frame) == GetCoalescing.DoRequest(old(Abs()), url, isGet, isRefresh)
    {
      GetCoalescing.DoKeeps(Abs(), url, isGet, isRefresh);
      hide GetCoalescing.Inv;
      if !isGet {
        frame := PerformRequest(url, isGet, isRefresh, false);
        return;
      }
      if url in inflightGets {
        return inflightGets[url];
      }
      frame := PerformRequest(url, isGet, isRefresh, true);
      inflightGets := inflightGets[url := frame];
    }

    method SettleFrame(frame: nat, result: GetCoalescing.Response)
      requires frame < |frames|
      modifies `frames
      ensures Abs() == GetCoalescing.Settle(old(Abs()), frame, result)
    {
      frames := frames[frame := frames[frame].(phase := GetCoalescing.Settled(result))];
    }

    // The rest of _performRequest once the network has answered: _tryRefresh is a POST through the wrapper.
    method OnAnswer(frame: nat, response: GetCoalescing.Response, hasToken: bool)
      requires Valid() && GetCoalescing.Enabled(Abs(), GetCoalescing.AnswerEvent(frame, response, hasToken))
      modifies this
      ensures Valid()
      ensures Abs() == GetCoalescing.Next(old(Abs()), GetCoalescing.AnswerEvent(frame, response, hasToken), GetCoalescing.Direct)
    {
      GetCoalescing.AnswerKeeps(Abs(), frame, response, hasToken);
      if response != GetCoalescing.Expired {
        SettleFrame(frame, response);
      } else if frames[frame].isRefresh || !hasToken {
        SettleFrame(frame, GetCoalescing.SESSION_EXPIRED);
      } else {
        var child := DoRequest(GetCoalescing.REFRESH_URL, false, true);
        hide GetCoalescing.Inv;
        var waiting := frames[frame];
        waiting := waiting.(phase := GetCoalescing.AtRefresh(child));
        waiting := waiting.(refresh := Some(child));
        frames := frames[frame := waiting];
      }
    }

    // A promise it waited for has settled: after a granted refresh the worker is called again, directly.
    method OnResume(frame: nat)
      requires Valid() && GetCoalescing.Enabled(Abs(), GetCoalescing.ResumeEvent(frame))
      modifies this
      ensures Valid()
      ensures Abs() == GetCoalescing.Next(old(Abs()), GetCoalescing.ResumeEvent(frame), GetCoalescing.Direct)
    {
      GetCoalescing.ResumeKeeps(Abs(), frame);
      hide GetCoalescing.Inv;
      var waiting := frames[frame];
      var result := frames[waiting.phase.child].phase.result;
      if waiting.phase.AtRetry? {
        SettleFrame(frame, result);
      } else if !result.Value? {
        SettleFrame(frame, GetCoalescing.SESSION_EXPIRED);
      } else {
        var again := PerformRequest(waiting.url, waiting.isGet, waiting.isRefresh, false);
        waiting := waiting.(phase := GetCoalescing.AtRetry(again));
        waiting := waiting.(retry := Some(again));
        frames := frames[frame := waiting];
      }
    }

    // finally(): the entry goes, by URL.
    method OnFinally(frame: nat)
      requires Valid() && GetCoalescing.Enabled(Abs(), GetCoalescing.FinallyEvent(frame))
      modifies this
      ensures Valid() && Abs() == GetCoalescing.Next(old(Abs()), GetCoalescing.FinallyEvent(frame), GetCoalescing.Direct)
    {
      GetCoalescing.FinallyKeeps(Abs(), frame);
      hide GetCoalescing.Inv;
      var url := frames[frame].url;
      frames := frames[frame := frames[frame].(finalized := true)];
      inflightGets := inflightGets - {url};
    }
  }
}

// The two stateful parts of cache.py as classes: MockRedis with its two dictionaries, and the
// module globals that get_redis() reads and writes when one thread calls it.
module Cache {
  import opened Options
  import opened MockRedis
  import RedisClient

  class MockRedisClient {
    var store: map<string, Value>
    var expiresAt: map<string, real>

    ghost function Abs(): Lazy
      reads this
    {
      Lazy(store, expiresAt)
    }

    ghost predicate Valid()
      reads this
    {
      WellFormed(Abs())
    }

    constructor ()
      ensures Valid() && Abs() == EMPTY
    {
      store, expiresAt := map[], map[];
    }

    method DropIfExpired(key: string, now: real) returns (gone: bool)
      modifies this
      ensures Abs() == Purge(old(Abs()), key, now) && gone == Expired(old(Abs()), key, now)
    {
      gone := key in expiresAt && now >= expiresAt[key];
      if gone {
        store := store - {key};
        expiresAt := expiresAt - {key};
      }
    }

    method GetValue(key: string, at: real) returns (r: Value)
      requires Valid()
      modifies this
      ensures Valid() && (Abs(), Got(r)) == LazyStep(old(Abs()), Get(key, at))
    {
      var gone := DropIfExpired(key, at);
      if gone {
        return PyNone;
      }
      r := PyNone;
      if key in store {
        r := store[key];
      }
      if r.PyStr? {
        r := PyBytes(r.text);
      }
    }

    method SetValue(key: string, value: Value, ex: Option<real>, nx: bool, at: real, later: real) returns (done: bool)
      requires Valid()
      modifies this
      ensures Valid()
      ensures (Abs(), if done then SetDone else SetRefused) == LazyStep(old(Abs()), Set(key, value, ex, nx, at, later))
    {
      LazyStepKeepsDeadlines(Abs(), Set(key, value, ex, nx, at, later));
      var gone := DropIfExpired(key, at);
      if nx && key in store {
        return false;
      }
      store := store[key := value];
      if ex.Some? {
        expiresAt := expiresAt[key := later + ex.value];
      } else {
        expiresAt := expiresAt - {key};
      }
      done := true;
    }

    method DeleteKey(key: string, at: real) returns (deleted: bool)
      requires Valid()
      modifies this
      ensures Valid() && (Abs(), Flag(deleted)) == LazyStep(old(Abs()), Delete(key, at))
    {
      expiresAt := expiresAt - {key};
      deleted := key in store && store[key] != PyNone;
      store := store - {key};
    }

    method HasKey(key: string, at: real) returns (present: bool)
      requires Valid()
      modifies this
      ensures Valid() && (Abs(), Flag(present)) == LazyStep(old(Abs()), Exists(key, at))
    {
      var gone := DropIfExpired(key, at);
      if gone {
        return false;
      }
      present := key in store;
    }

    // The loop purges as it goes, reading the clock once per key.
    method ListKeys(matches: string -> bool, clock: string -> real, at: real, later: real) returns (found: set<string>)
      requires Valid()
      modifies this
      ensures Valid() && (Abs(), Listed(found)) == LazyStep(old(Abs()), Keys(matches, clock, at, later))
    {
      ghost var before := Abs();
      var rest := store.Keys;
      found := {};
      while rest != {}
        invariant rest <= before.store.Keys
        invariant store == before.store - set k | k in before.store.Keys - rest && Expired(before, k, clock(k))
        invariant expiresAt == before.expires - set k | k in before.store.Keys - rest && Expired(before, k, clock(k))
        invariant found == set k | k in before.store.Keys - rest && !Expired(before, k, clock(k)) && matches(k)
        decreases rest
      {
        var key :| key in rest;
        var gone := DropIfExpired(key, clock(key));
        if !gone && matches(key) {
          found := found + {key};
        }
        rest := rest - {key};
      }
      LazyStepKeepsDeadlines(before, Keys(matches, clock, at, later));
      ghost var after := PurgeAll(before, clock);
      assert before.store.Keys - rest == before.store.Keys;
      assert Abs() == after;
      assert found == set k | k in after.store && matches(k);
    }
  }

  class RedisModule {
    var client: Option<RedisClient.Client>
    var lastAttemptAt: Option<real>
    var mocks: nat

    constructor ()
      ensures AsGlobals() == RedisClient.Globals(None, None, 0)
    {
      client, lastAttemptAt, mocks := None, None, 0;
    }

    ghost function AsGlobals(): RedisClient.Globals
      reads this
    {
      RedisClient.Globals(client, lastAttemptAt, mocks)
    }

    // One call with nobody interfering; `now` and `again` are the two readings before the decision,
    // `found` what the connection attempt returns and `stamp` the reading after it.
    method GetRedis(now: real, again: real, found: Option<nat>, stamp: real) returns (r: RedisClient.Client)
      modifies this
      ensures client == Some(r) && AsGlobals() == RedisClient.Undisturbed(old(AsGlobals()), now, again, found, stamp)
    {
      if RedisClient.IsReal(client) {
        return client.value;
      }
      if client.Some? && lastAttemptAt.Some? && now - lastAttemptAt.value < RedisClient.RETRY_INTERVAL {
        return client.value;
      }
      if client.Some? && lastAttemptAt.Some? && again - lastAttemptAt.value < RedisClient.RETRY_INTERVAL {
        return client.value;
      }
      lastAttemptAt := Some(stamp);
      if found.Some? {
        client := Some(RedisClient.Real(found.value));
      } else if client.None? {
        client := Some(RedisClient.Mock(mocks));
        mocks := mocks + 1;
      }
      r := client.value;
    }
  }
}

/**
 What the wait that the Redis backend tells a refused caller is worth. TTL rounds the remaining time to
 the nearest second, so the wait can end up to half a second before the window does.
 */
module RedisWaiting {
  import opened Wrappers
  import opened RateLimit
  import opened RateLimitWindows
  import opened RedisBackend

  /** The wait told by Redis, too, lies between one second and one window. */
  lemma {:induction false} RedisRetryAfterInWindow(served: seq<Served>, key: string, limit: int, window: int, i: nat)
    requires window >= 1 && Monotone(Calls(served)) && FixedPolicy(Calls(served), key, limit, window)
    requires PurgesExpired(map[], served) && i < |served| && served[i].call.key == key
    ensures 1 <= RedisBackend.Run(map[], served)[i].retryAfter <= window
  {
    RedisRefinesMemory(served, i);
    RetryAfterInWindow(map[], Calls(served), key, limit, window, i);
  }

  /** The counters after some requests. */
  function ServedAfter(values: map<string, Value>, served: seq<Served>): map<string, Value>
    decreases |served|
  {
    if served == [] then values else ServedAfter(Scripted(values, served[0]), served[1..])
  }

  /** The decision on a request follows from the counters before it. */
  lemma {:induction false} DecidedAfter(values: map<string, Value>, before: seq<Served>, rest: seq<Served>)
    requires rest != []
    ensures RedisBackend.Run(values, before + rest)[|before|]
            == RedisBackend.Run(ServedAfter(values, before), rest)[0]
    decreases |before|
  {
    if before == [] {
      assert before + rest == rest;
    } else {
      assert (before + rest)[1..] == before[1..] + rest;
      DecidedAfter(Scripted(values, before[0]), before[1..], rest);
    }
  }

  lemma {:induction false} PurgesLater(values: map<string, Value>, before: seq<Served>, rest: seq<Served>)
    requires PurgesExpired(values, before + rest)
    ensures PurgesExpired(ServedAfter(values, before), rest)
    decreases |before|
  {
    if before == [] {
      assert before + rest == rest;
    } else {
      assert (before + rest)[1..] == before[1..] + rest;
      PurgesLater(Scripted(values, before[0]), before[1..], rest);
    }
  }

  /** Before a request the two stores have the same live counters. */
  lemma {:induction false} SameCountersAt(
      redis: map<string, Value>, memory: map<string, Entry>, before: seq<Served>, rest: seq<Served>)
    requires rest != [] && SameCounters(redis, memory, (before + rest)[0].call.now)
    requires Monotone(Calls(before + rest)) && PurgesExpired(redis, before + rest)
    ensures SameCounters(ServedAfter(redis, before), After(memory, Calls(before)), rest[0].call.now)
    decreases |before|
  {
    if before == [] {
      assert before + rest == rest;
    } else {
      var c := before[0].call;
      assert (before + rest)[1..] == before[1..] + rest;
      OneScriptOn(redis, memory, before + rest);
      SameCountersAt(Scripted(redis, before[0]), memory[c.key := Bump(Lookup(memory, c.key), c.window, c.now)],
                     before[1..], rest);
    }
  }

  /** How long the window of a request's key still lasts after it. */
  function Remaining(before: seq<Served>, told: Served): real {
    EntryAfter(Calls(before), told.call).expires - told.call.now
  }

  lemma {:induction false} ToldWait(before: seq<Served>, told: Served, rest: seq<Served>)
    requires var trace := before + ([told] + rest); Monotone(Calls(trace)) && PurgesExpired(map[], trace)
    ensures RedisBackend.Run(map[], before + ([told] + rest))[|before|].retryAfter
            == Max(1, Round(Remaining(before, told)))
  {
    SameCountersAt(map[], map[], before, [told] + rest);
    DecidedAfter(map[], before, [told] + rest);
    PurgesLater(map[], before, [told] + rest);
    OneScript(ServedAfter(map[], before), After(map[], Calls(before)), told);
  }

  /** Rounding does not cut the wait short: the time left is at most a second, whole, or rounded up. */
  predicate WaitSuffices(remaining: real) {
    remaining <= 1.0 || remaining == remaining.Floor as real || remaining - remaining.Floor as real >= 0.5
  }

  lemma FloorIs(x: real, n: int)
    requires n as real <= x < n as real + 1.0
    ensures x.Floor == n
  {
  }

  lemma RoundedWait(remaining: real)
    ensures remaining <= Max(1, Round(remaining)) as real <==> WaitSuffices(remaining)
    ensures remaining <= Max(1, Round(remaining)) as real + 0.5
  {
    var n := remaining.Floor;
    FloorIs(remaining + 0.5, if remaining - n as real >= 0.5 then n + 1 else n);
  }

  /** The same request again on the same key, with only calls before the window's end in between. */
  ghost predicate CallsAgain(before: seq<Served>, told: Served, between: seq<Served>, again: Served) {
    var trace := before + [told] + between + [again];
    && told.call.limit >= 1 && again.call == told.call.(now := again.call.now)
    && Monotone(Calls(trace)) && PurgesExpired(map[], trace)
    && forall x | x in between && x.call.key == told.call.key ::
         x.call.now < EntryAfter(Calls(before), told.call).expires
  }

  lemma {:induction false} TraceOfCalls(before: seq<Served>, told: Served, between: seq<Served>, again: Served)
    ensures Calls(before + [told] + between + [again]) == Calls(before) + [told.call] + Calls(between) + [again.call]
  {
  }

  /** The wait that the caller is told, and what becomes of the request afterwards. */
  lemma {:induction false} AgainOnRedis(before: seq<Served>, told: Served, between: seq<Served>, again: Served)
    requires CallsAgain(before, told, between, again)
    ensures var ds, i := RedisBackend.Run(map[], before + [told] + between + [again]), |before| + 1 + |between|;
            var ends := EntryAfter(Calls(before), told.call).expires;
            && ds[|before|].retryAfter == Max(1, Round(Remaining(before, told)))
            && (ds[i].count == 1 <==> ends <= again.call.now)
            && (ends <= again.call.now ==> ds[i].allowed)
            && (again.call.now < ends && !ds[|before|].allowed ==> !ds[i].allowed)
  {
    var trace, rest := before + [told] + between + [again], between + [again];
    assert trace == before + ([told] + rest);
    ToldWait(before, told, rest);
    TraceOfCalls(before, told, between, again);
    RedisRefinesMemory(trace, |before|);
    RedisRefinesMemory(trace, |before| + 1 + |between|);
    AgainInMemory(before, told, between, again);
  }

  lemma {:induction false} AgainInMemory(before: seq<Served>, told: Served, between: seq<Served>, again: Served)
    requires CallsAgain(before, told, between, again)
    ensures var ds := RateLimit.Run(map[], Calls(before) + [told.call] + Calls(between) + [again.call]);
            var ends, i := EntryAfter(Calls(before), told.call).expires, |before| + 1 + |between|;
            && (ds[i].count == 1 <==> ends <= again.call.now)
            && (ends <= again.call.now ==> ds[i].allowed)
            && (again.call.now < ends && !ds[|before|].allowed ==> !ds[i].allowed)
  {
    CallingAgain(Calls(before), told.call, Calls(between), again.call);
  }

  /**
   On Redis, a caller that waits exactly as told and is the first on its key after the window has closed
   opens a new window if and only if rounding did not cut the wait short; otherwise a refused caller is
   refused again.
   */
  lemma {:induction false} RedisWaitingHelps(before: seq<Served>, told: Served, between: seq<Served>, again: Served)
    requires CallsAgain(before, told, between, again)
    requires var ds := RedisBackend.Run(map[], before + [told] + between + [again]);
             again.call.now == told.call.now + ds[|before|].retryAfter as real
    ensures var ds, i := RedisBackend.Run(map[], before + [told] + between + [again]), |before| + 1 + |between|;
            && (ds[i].count == 1 <==> WaitSuffices(Remaining(before, told)))
            && (!ds[|before|].allowed ==> (ds[i].allowed <==> WaitSuffices(Remaining(before, told))))
  {
    AgainOnRedis(before, told, between, again);
    RoundedWait(Remaining(before, told));
  }

  /** Half a second more than told always suffices. */
  lemma {:induction false} RedisWaitingLonger(before: seq<Served>, told: Served, between: seq<Served>, again: Served)
    requires CallsAgain(before, told, between, again)
    requires var ds := RedisBackend.Run(map[], before + [told] + between + [again]);
             again.call.now >= told.call.now + ds[|before|].retryAfter as real + 0.5
    ensures var d := RedisBackend.Run(map[], before + [told] + between + [again])[|before| + 1 + |between|];
            d.allowed && d.count == 1
  {
    AgainOnRedis(before, told, between, again);
    RoundedWait(Remaining(before, told));
  }

  function At(now: real): Served {
    Served(Call("key", 1, 2, now), {})
  }

  /** A caller that is refused, waits the second it is told, and is refused again. */
  lemma {:induction false} WaitingCanFail()
    ensures var ds := RedisBackend.Run(map[], [At(0.0), At(0.6), At(1.6)]);
            && PurgesExpired(map[], [At(0.0), At(0.6), At(1.6)])
            && !ds[1].allowed && ds[1].retryAfter == 1 && 1.6 == 0.6 + ds[1].retryAfter as real && !ds[2].allowed
  {
  }
}

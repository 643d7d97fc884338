/**
 The fixed-window counters of apps/api/app/core/rate_limit.py: the in-memory backend, the Redis
 backend and the limiter that drives them.
 */
module RateLimit {
  import opened Wrappers

  /** `time.monotonic()` and Redis time are real numbers of seconds. */
  datatype Entry = Entry(count: nat, expires: real)

  datatype Decision = Decision(allowed: bool, retryAfter: int, count: int)

  datatype Call = Call(key: string, limit: int, window: int, now: real)

  function Max(a: int, b: int): int {
    if a < b then b else a
  }

  function Ceil(x: real): (c: int)
    ensures x <= c as real < x + 1.0
  {
    -((-x).Floor)
  }

  /** The entry of a key after one more call. */
  function Bump(entry: Option<Entry>, window: int, now: real): Entry {
    if entry.None? || entry.value.expires <= now
    then Entry(1, now + window as real)
    else entry.value.(count := entry.value.count + 1)
  }

  function Decide(entry: Entry, limit: int, now: real): Decision {
    Decision(entry.count <= limit, Max(1, Ceil(entry.expires - now)), entry.count)
  }

  class InMemoryAtomicBackend {
    var values: map<string, Entry>

    constructor ()
      ensures values == map[]
    {
      values := map[];
    }

    method Increment(key: string, limit: int, window: int, now: real) returns (d: Decision)
      modifies this
      ensures values == old(values)[key := Bump(Lookup(old(values), key), window, now)]
      ensures d == Decide(values[key], limit, now)
    {
      var count, expires := 0, now + window as real;
      if key in values {
        count, expires := values[key].count, values[key].expires;
      }
      if expires <= now {
        count, expires := 0, now + window as real;
      }
      count := count + 1;
      values := values[key := Entry(count, expires)];
      d := Decision(count <= limit, Max(1, Ceil(expires - now)), count);
    }
  }

  // ---- Traces of calls ----

  /** The decisions of a trace of calls served by one in-memory backend. */
  function Run(values: map<string, Entry>, calls: seq<Call>): (ds: seq<Decision>)
    ensures |ds| == |calls|
    decreases |calls|
  {
    if calls == [] then []
    else
      var c := calls[0];
      var entry := Bump(Lookup(values, c.key), c.window, c.now);
      [Decide(entry, c.limit, c.now)] + Run(values[c.key := entry], calls[1..])
  }

  function After(values: map<string, Entry>, calls: seq<Call>): map<string, Entry>
    decreases |calls|
  {
    if calls == [] then values
    else
      var c := calls[0];
      After(values[c.key := Bump(Lookup(values, c.key), c.window, c.now)], calls[1..])
  }

  ghost predicate Monotone(calls: seq<Call>) {
    forall i, j | 0 <= i <= j < |calls| :: calls[i].now <= calls[j].now
  }

  /** Every call on the key uses this limit and this window. */
  ghost predicate FixedPolicy(calls: seq<Call>, key: string, limit: int, window: int) {
    forall i | 0 <= i < |calls| && calls[i].key == key :: calls[i].limit == limit && calls[i].window == window
  }

  /** How many calls on the key are allowed at times in `[from, to)`. */
  function Admitted(calls: seq<Call>, ds: seq<Decision>, key: string, from: real, to: real): nat
    requires |calls| == |ds|
  {
    if calls == [] then 0
    else
      (if calls[0].key == key && from <= calls[0].now < to && ds[0].allowed then 1 else 0)
      + Admitted(calls[1..], ds[1..], key, from, to)
  }

  lemma {:induction false} RunAppend(values: map<string, Entry>, xs: seq<Call>, ys: seq<Call>)
    ensures Run(values, xs + ys) == Run(values, xs) + Run(After(values, xs), ys)
    decreases |xs|
  {
    if xs == [] {
      assert xs + ys == ys;
    } else {
      assert (xs + ys)[1..] == xs[1..] + ys;
      var c := xs[0];
      RunAppend(values[c.key := Bump(Lookup(values, c.key), c.window, c.now)], xs[1..], ys);
    }
  }

  // ---- The sliding bound ----

  /** What a key may still admit inside an interval that starts at `from`, given its entry. */
  function Budget(entry: Option<Entry>, limit: nat, window: int, from: real): nat
    requires limit >= 1
  {
    if entry.None? || entry.value.expires <= from then 2 * limit - 1
    else
      var left := if entry.value.count < limit then limit - entry.value.count else 0;
      if from <= entry.value.expires - window as real then left else left + limit
  }

  lemma {:induction false} NothingLater(calls: seq<Call>, ds: seq<Decision>, key: string, from: real, to: real)
    requires |calls| == |ds| && forall i | 0 <= i < |calls| :: to <= calls[i].now
    ensures Admitted(calls, ds, key, from, to) == 0
  {
    if calls != [] { NothingLater(calls[1..], ds[1..], key, from, to); }
  }

  lemma {:induction false} AdmittedWithinBudget(
      values: map<string, Entry>, calls: seq<Call>, key: string, limit: nat, window: int, from: real)
    requires limit >= 1 && window >= 1
    requires Monotone(calls) && FixedPolicy(calls, key, limit, window)
    requires key in values ==> values[key].count >= 1
    ensures Admitted(calls, Run(values, calls), key, from, from + window as real)
            <= Budget(Lookup(values, key), limit, window, from)
    decreases |calls|
  {
    if calls != [] {
      var c := calls[0];
      var entry := Bump(Lookup(values, c.key), c.window, c.now);
      assert Run(values, calls)[1..] == Run(values[c.key := entry], calls[1..]);
      if from + window as real <= c.now {
        NothingLater(calls, Run(values, calls), key, from, from + window as real);
      } else {
        AdmittedWithinBudget(values[c.key := entry], calls[1..], key, limit, window, from);
      }
    }
  }

  /**
   Over every trace and every half-open interval of one window length, a key admits at most
   2 * limit - 1 calls: a window straddling the start has spent one call on opening itself.
   */
  lemma {:induction false} SlidingBound(calls: seq<Call>, key: string, limit: nat, window: int, from: real)
    requires limit >= 1 && window >= 1
    requires Monotone(calls) && FixedPolicy(calls, key, limit, window)
    ensures Admitted(calls, Run(map[], calls), key, from, from + window as real) <= 2 * limit - 1
  {
    AdmittedWithinBudget(map[], calls, key, limit, window, from);
  }

  /** A limit of zero or less admits nothing. */
  lemma {:induction false} NoLimitNoCalls(
      values: map<string, Entry>, calls: seq<Call>, key: string, limit: int, window: int, from: real, to: real)
    requires limit <= 0 && FixedPolicy(calls, key, limit, window)
    ensures Admitted(calls, Run(values, calls), key, from, to) == 0
    decreases |calls|
  {
    if calls != [] {
      var c := calls[0];
      var entry := Bump(Lookup(values, c.key), c.window, c.now);
      assert Run(values, calls)[1..] == Run(values[c.key := entry], calls[1..]);
      NoLimitNoCalls(values[c.key := entry], calls[1..], key, limit, window, from, to);
    }
  }

  // The bound is reached.

  function Burst(key: string, limit: int, window: int, now: real, n: nat): (calls: seq<Call>)
    ensures |calls| == n
    ensures forall i | 0 <= i < n :: calls[i] == Call(key, limit, window, now)
  {
    seq(n, i => Call(key, limit, window, now))
  }

  /** A call into a live window that still has room is admitted and counted. */
  lemma {:induction false} OneAdmitted(values: map<string, Entry>, c: Call, rest: seq<Call>, from: real)
    requires c.key in values && c.now < values[c.key].expires && values[c.key].count < c.limit
    requires from <= c.now < from + c.window as real
    ensures var values' := values[c.key := Entry(values[c.key].count + 1, values[c.key].expires)];
            Admitted([c] + rest, Run(values, [c] + rest), c.key, from, from + c.window as real)
            == 1 + Admitted(rest, Run(values', rest), c.key, from, from + c.window as real)
  {
  }

  lemma {:induction false} BurstAdmitted(
      values: map<string, Entry>, key: string, limit: int, window: int, now: real, n: nat, rest: seq<Call>, from: real)
    requires key in values && now < values[key].expires && values[key].count + n <= limit
    requires from <= now < from + window as real
    ensures var calls := Burst(key, limit, window, now, n) + rest;
            var values' := values[key := Entry(values[key].count + n, values[key].expires)];
            Admitted(calls, Run(values, calls), key, from, from + window as real)
            == n + Admitted(rest, Run(values', rest), key, from, from + window as real)
    decreases n
  {
    if n == 0 {
      assert Burst(key, limit, window, now, n) + rest == rest;
      assert values[key := Entry(values[key].count, values[key].expires)] == values;
    } else {
      var c := Call(key, limit, window, now);
      var fewer := Burst(key, limit, window, now, n - 1) + rest;
      var next := values[key := Entry(values[key].count + 1, values[key].expires)];
      assert Burst(key, limit, window, now, n) + rest == [c] + fewer;
      OneAdmitted(values, c, fewer, from);
      BurstAdmitted(next, key, limit, window, now, n - 1, rest, from);
      assert next[key := Entry(next[key].count + (n - 1), next[key].expires)]
          == values[key := Entry(values[key].count + n, values[key].expires)];
    }
  }

  /** One call at time 0, limit - 1 in mid window, limit when the next window opens. */
  function TightTrace(key: string, limit: nat, window: int): seq<Call>
    requires limit >= 1
  {
    var w := window as real;
    [Call(key, limit, window, 0.0)] +
    (Burst(key, limit, window, w / 2.0, limit - 1)
     + ([Call(key, limit, window, w)] + Burst(key, limit, window, w, limit - 1)))
  }

  lemma {:induction false} TightTraceIsOrdered(key: string, limit: nat, window: int)
    requires limit >= 1 && window >= 1
    ensures Monotone(TightTrace(key, limit, window)) && FixedPolicy(TightTrace(key, limit, window), key, limit, window)
  {
  }

  lemma {:induction false} OpensWindow(values: map<string, Entry>, c: Call, rest: seq<Call>, from: real)
    requires c.key in values ==> values[c.key].expires <= c.now
    requires c.limit >= 1
    ensures Admitted([c] + rest, Run(values, [c] + rest), c.key, from, from + c.window as real)
            == (if from <= c.now < from + c.window as real then 1 else 0)
               + Admitted(rest, Run(values[c.key := Entry(1, c.now + c.window as real)], rest),
                          c.key, from, from + c.window as real)
  {
  }

  lemma {:induction false} OpeningBurst(
      values: map<string, Entry>, key: string, limit: nat, window: int, now: real, from: real)
    requires limit >= 1 && window >= 1 && from <= now < from + window as real
    requires key in values ==> values[key].expires <= now
    ensures var calls := [Call(key, limit, window, now)] + Burst(key, limit, window, now, limit - 1);
            Admitted(calls, Run(values, calls), key, from, from + window as real) == limit
  {
    var rest := Burst(key, limit, window, now, limit - 1);
    OpensWindow(values, Call(key, limit, window, now), rest, from);
    BurstAdmitted(values[key := Entry(1, now + window as real)], key, limit, window, now, limit - 1, [], from);
    assert rest + [] == rest;
  }

  /** For every limit and window the bound of SlidingBound is attained, by an ordered trace. */
  lemma {:induction false} SlidingBoundIsTight(key: string, limit: nat, window: int)
    requires limit >= 1 && window >= 1
    ensures Monotone(TightTrace(key, limit, window)) && FixedPolicy(TightTrace(key, limit, window), key, limit, window)
    ensures Admitted(TightTrace(key, limit, window), Run(map[], TightTrace(key, limit, window)), key,
                     window as real / 2.0, window as real / 2.0 + window as real)
            == 2 * limit - 1
  {
    TightTraceIsOrdered(key, limit, window);
    var w := window as real;
    var rest := TightTrace(key, limit, window)[1..];
    assert TightTrace(key, limit, window) == [Call(key, limit, window, 0.0)] + rest;
    OpensWindow(map[], Call(key, limit, window, 0.0), rest, w / 2.0);
    TightRest(map[][key := Entry(1, w)], key, limit, window);
  }

  lemma {:induction false} TightRest(live: map<string, Entry>, key: string, limit: nat, window: int)
    requires limit >= 1 && window >= 1 && key in live && live[key] == Entry(1, window as real)
    ensures var rest := TightTrace(key, limit, window)[1..];
            Admitted(rest, Run(live, rest), key, window as real / 2.0, window as real / 2.0 + window as real)
            == 2 * limit - 1
  {
    var w := window as real;
    var second := [Call(key, limit, window, w)] + Burst(key, limit, window, w, limit - 1);
    assert TightTrace(key, limit, window)[1..] == Burst(key, limit, window, w / 2.0, limit - 1) + second;
    BurstAdmitted(live, key, limit, window, w / 2.0, limit - 1, second, w / 2.0);
    OpeningBurst(live[key := Entry(limit, w)], key, limit, window, w, w / 2.0);
  }
}

/**
 What the in-memory counter means: calls on a key fall into windows opened by their first call,
 each window admits its first `limit` calls, and keys do not influence each other.
 */
module RateLimitWindows {
  import opened Wrappers
  import opened RateLimit

  // ---- Keys are independent ----

  function CallsOn(calls: seq<Call>, key: string): seq<Call> {
    if calls == [] then []
    else (if calls[0].key == key then [calls[0]] else []) + CallsOn(calls[1..], key)
  }

  function DecisionsOn(calls: seq<Call>, ds: seq<Decision>, key: string): seq<Decision>
    requires |calls| == |ds|
  {
    if calls == [] then []
    else (if calls[0].key == key then [ds[0]] else []) + DecisionsOn(calls[1..], ds[1..], key)
  }

  /** The decisions on one key are those of the trace projected to it, on any store with the same entry. */
  lemma {:induction false} KeysAreIsolated(
      values: map<string, Entry>, values': map<string, Entry>, calls: seq<Call>, key: string)
    requires Lookup(values, key) == Lookup(values', key)
    ensures DecisionsOn(calls, Run(values, calls), key) == Run(values', CallsOn(calls, key))
    decreases |calls|
  {
    if calls != [] {
      var c := calls[0];
      var next := values[c.key := Bump(Lookup(values, c.key), c.window, c.now)];
      assert Run(values, calls)[1..] == Run(next, calls[1..]);
      if c.key == key {
        var next' := values'[key := Bump(Lookup(values', key), c.window, c.now)];
        KeysAreIsolated(next, next', calls[1..], key);
        assert CallsOn(calls, key)[1..] == CallsOn(calls[1..], key);
      } else {
        KeysAreIsolated(next, values', calls[1..], key);
        assert CallsOn(calls, key) == CallsOn(calls[1..], key);
      }
    }
  }

  // ---- The windows of one key ----

  ghost predicate Sorted(times: seq<real>) {
    forall i, j | 0 <= i <= j < |times| :: times[i] <= times[j]
  }

  /** How many leading times lie before `end`. */
  function Leading(times: seq<real>, end: real): (n: nat)
    ensures n <= |times|
    ensures forall i | 0 <= i < n :: times[i] < end
    ensures n < |times| ==> end <= times[n]
  {
    if times == [] || end <= times[0] then 0 else 1 + Leading(times[1..], end)
  }

  /** The calls grouped into windows: the first opens one, those within its length belong to it. */
  function Windows(times: seq<real>, window: int): seq<seq<real>>
    requires window >= 1
    decreases |times|
  {
    if times == [] then []
    else
      var n := Leading(times, times[0] + window as real);
      [times[..n]] + Windows(times[n..], window)
  }

  /** The counts from + 1, from + 2, ..., from + n. */
  function Counting(from: nat, n: nat): (cs: seq<nat>)
    ensures |cs| == n && forall i | 0 <= i < n :: cs[i] == from + 1 + i
  {
    seq(n, i requires 0 <= i < n => from + 1 + i)
  }

  function Ordinals(windows: seq<seq<real>>): seq<nat> {
    if windows == [] then [] else Counting(0, |windows[0]|) + Ordinals(windows[1..])
  }

  function CallsAt(key: string, limit: int, window: int, times: seq<real>): (calls: seq<Call>)
    ensures |calls| == |times|
  {
    seq(|times|, i requires 0 <= i < |times| => Call(key, limit, window, times[i]))
  }

  function Counts(ds: seq<Decision>): (ns: seq<int>)
    ensures |ns| == |ds| && forall i | 0 <= i < |ds| :: ns[i] == ds[i].count
  {
    if ds == [] then [] else [ds[0].count] + Counts(ds[1..])
  }

  /** One call on the key: its count, and the store the rest of the trace runs on. */
  lemma {:induction false} RunFirst(values: map<string, Entry>, key: string, limit: int, window: int, times: seq<real>)
    requires times != []
    ensures var entry := Bump(Lookup(values, key), window, times[0]);
            Counts(Run(values, CallsAt(key, limit, window, times)))
            == [entry.count] + Counts(Run(values[key := entry], CallsAt(key, limit, window, times[1..])))
  {
    assert CallsAt(key, limit, window, times)[1..] == CallsAt(key, limit, window, times[1..]);
    var entry := Bump(Lookup(values, key), window, times[0]);
    assert Run(values, CallsAt(key, limit, window, times))[1..]
        == Run(values[key := entry], CallsAt(key, limit, window, times[1..]));
  }

  lemma {:induction false} CountingFirst(from: nat, n: nat, rest: seq<nat>)
    requires n >= 1
    ensures Counting(from, n) + rest == [from + 1] + (Counting(from + 1, n - 1) + rest)
  {
  }

  lemma {:induction false} FirstWindow(times: seq<real>, window: int)
    requires window >= 1 && times != []
    ensures var n := Leading(times, times[0] + window as real);
            Ordinals(Windows(times, window)) == Counting(0, n) + Ordinals(Windows(times[n..], window))
  {
  }

  /** The counts of a trace of calls on one key. */
  function CountsAt(values: map<string, Entry>, key: string, limit: int, window: int, times: seq<real>): seq<int> {
    Counts(Run(values, CallsAt(key, limit, window, times)))
  }

  /** Inside a live window the counts continue; after it the windows start anew. */
  lemma {:induction false} LiveWindow(
      values: map<string, Entry>, key: string, limit: int, window: int, times: seq<real>, n: nat)
    requires window >= 1 && Sorted(times) && key in values && n == Leading(times, values[key].expires)
    ensures CountsAt(values, key, limit, window, times)
            == Counting(values[key].count, n) + Ordinals(Windows(times[n..], window))
    decreases |times|, 1
  {
    var count := values[key].count;
    var rest := Ordinals(Windows(times[n..], window));
    if n == 0 {
      assert times[0..] == times;
      assert Counting(count, 0) + rest == rest;
      ClosedWindow(values, key, limit, window, times);
    } else {
      var next := values[key := Entry(count + 1, values[key].expires)];
      LiveWindow(next, key, limit, window, times[1..], n - 1);
      assert times[1..][n - 1..] == times[n..];
      CountedFirst(values, next, key, limit, window, times, count, n, rest);
    }
  }

  lemma {:induction false} ClosedWindow(
      values: map<string, Entry>, key: string, limit: int, window: int, times: seq<real>)
    requires window >= 1 && Sorted(times)
    requires key in values && times != [] ==> values[key].expires <= times[0]
    ensures CountsAt(values, key, limit, window, times) == Ordinals(Windows(times, window))
    decreases |times|, 0
  {
    if times != [] {
      var end := times[0] + window as real;
      var n := Leading(times, end);
      var next := values[key := Entry(1, end)];
      LiveWindow(next, key, limit, window, times[1..], n - 1);
      assert times[1..][n - 1..] == times[n..];
      CountedFirst(values, next, key, limit, window, times, 0, n, Ordinals(Windows(times[n..], window)));
      FirstWindow(times, window);
    }
  }

  /** A call that gets the count `count + 1`, before others that continue it. */
  lemma {:induction false} CountedFirst(
      values: map<string, Entry>, next: map<string, Entry>, key: string, limit: int, window: int, times: seq<real>,
      count: nat, n: nat, rest: seq<nat>)
    requires times != [] && n >= 1
    requires next == values[key := Bump(Lookup(values, key), window, times[0])] && next[key].count == count + 1
    requires CountsAt(next, key, limit, window, times[1..]) == Counting(count + 1, n - 1) + rest
    ensures CountsAt(values, key, limit, window, times) == Counting(count, n) + rest
  {
    RunFirst(values, key, limit, window, times);
    CountingFirst(count, n, rest);
  }

  lemma {:induction false} AllowedByCount(values: map<string, Entry>, calls: seq<Call>, i: nat)
    requires i < |calls|
    ensures Run(values, calls)[i].allowed <==> Run(values, calls)[i].count <= calls[i].limit
    decreases |calls|
  {
    if i > 0 {
      var c := calls[0];
      AllowedByCount(values[c.key := Bump(Lookup(values, c.key), c.window, c.now)], calls[1..], i - 1);
    }
  }

  /**
   For every trace, the counts on a key are the positions of its calls in their windows, and a call
   is allowed exactly when its position does not exceed the limit.
   */
  lemma {:induction false} DecisionsFollowWindows(
      calls: seq<Call>, key: string, limit: int, window: int, times: seq<real>)
    requires window >= 1 && Sorted(times) && CallsOn(calls, key) == CallsAt(key, limit, window, times)
    ensures var ds := DecisionsOn(calls, Run(map[], calls), key);
            && Counts(ds) == Ordinals(Windows(times, window))
            && forall i | 0 <= i < |ds| :: ds[i].allowed <==> ds[i].count <= limit
  {
    KeysAreIsolated(map[], map[], calls, key);
    ClosedWindow(map[], key, limit, window, times);
    var ds := Run(map[], CallsAt(key, limit, window, times));
    forall i | 0 <= i < |ds| ensures ds[i].allowed <==> ds[i].count <= limit {
      AllowedByCount(map[], CallsAt(key, limit, window, times), i);
    }
  }

  /** How many calls lie in the first k windows. */
  function Offset(windows: seq<seq<real>>, k: nat): nat
    requires k <= |windows|
  {
    if k == 0 then 0 else |windows[0]| + Offset(windows[1..], k - 1)
  }

  /** The i-th call of the k-th window has the count i + 1. */
  lemma {:induction false} OrdinalAt(windows: seq<seq<real>>, k: nat, i: nat)
    requires k < |windows| && i < |windows[k]|
    ensures Offset(windows, k) + i < |Ordinals(windows)| && Ordinals(windows)[Offset(windows, k) + i] == i + 1
  {
    if k > 0 { OrdinalAt(windows[1..], k - 1, i); }
  }

  lemma {:induction false} OrdinalsLength(windows: seq<seq<real>>)
    ensures |Ordinals(windows)| == Offset(windows, |windows|)
  {
    if windows != [] { OrdinalsLength(windows[1..]); }
  }

  lemma {:induction false} OffsetEnds(windows: seq<seq<real>>, k: nat)
    requires k < |windows|
    ensures Offset(windows, k) + |windows[k]| <= Offset(windows, |windows|)
  {
    if k > 0 { OffsetEnds(windows[1..], k - 1); }
  }

  /**
   The windows of ordered times: none is empty, each holds the times within one length of its first, and
   the next one opens only after that.
   */
  lemma {:induction false} WindowsAreSpans(times: seq<real>, window: int, k: nat)
    requires window >= 1 && Sorted(times) && k < |Windows(times, window)|
    ensures var ws := Windows(times, window);
            && ws[k] != []
            && (forall i | 0 <= i < |ws[k]| :: ws[k][0] <= ws[k][i] < ws[k][0] + window as real)
            && (k + 1 < |ws| ==> ws[k + 1] != [] && ws[k][0] + window as real <= ws[k + 1][0])
    decreases k
  {
    var n := Leading(times, times[0] + window as real);
    if k > 0 { WindowsAreSpans(times[n..], window, k - 1); }
  }

  function NumberAllowed(ds: seq<Decision>): nat {
    if ds == [] then 0 else NumberAllowed(ds[..|ds| - 1]) + if ds[|ds| - 1].allowed then 1 else 0
  }

  /** The first calls up to the limit are allowed, and no other. */
  predicate FirstOnes(ds: seq<Decision>, limit: nat) {
    forall i | 0 <= i < |ds| :: ds[i].allowed <==> i < limit
  }

  lemma {:induction false} FirstOnesAllowed(ds: seq<Decision>, limit: nat)
    requires FirstOnes(ds, limit)
    ensures NumberAllowed(ds) == if |ds| < limit then |ds| else limit
  {
    if ds != [] { FirstOnesAllowed(ds[..|ds| - 1], limit); }
  }

  lemma {:induction false} WindowShare(ds: seq<Decision>, ws: seq<seq<real>>, k: nat, limit: nat)
    requires k < |ws| && Counts(ds) == Ordinals(ws)
    requires forall i | 0 <= i < |ds| :: ds[i].allowed <==> ds[i].count <= limit
    ensures |ds| == Offset(ws, |ws|) && Offset(ws, k) + |ws[k]| <= |ds|
    ensures FirstOnes(ds[Offset(ws, k)..Offset(ws, k) + |ws[k]|], limit)
  {
    OrdinalsLength(ws);
    OffsetEnds(ws, k);
    var from := Offset(ws, k);
    var slice := ds[from..from + |ws[k]|];
    forall i | 0 <= i < |slice|
      ensures slice[i].allowed <==> i < limit
    {
      OrdinalAt(ws, k, i);
      assert slice[i] == ds[from + i] && Counts(ds)[from + i] == i + 1;
    }
  }

  /**
   Over every trace the decisions on a key fall into its windows, and each window admits its first
   calls up to the limit and no other: exactly min(calls, limit) of them.
   */
  lemma {:induction false} EachWindowAdmitsMinimum(
      calls: seq<Call>, key: string, limit: nat, window: int, times: seq<real>, k: nat)
    requires window >= 1 && Sorted(times) && CallsOn(calls, key) == CallsAt(key, limit, window, times)
    requires k < |Windows(times, window)|
    ensures var ds, ws := DecisionsOn(calls, Run(map[], calls), key), Windows(times, window);
            var from, n := Offset(ws, k), |ws[k]|;
            && |ds| == Offset(ws, |ws|) && from + n <= |ds|
            && FirstOnes(ds[from..from + n], limit)
            && NumberAllowed(ds[from..from + n]) == if n < limit then n else limit
  {
    var ds, ws := DecisionsOn(calls, Run(map[], calls), key), Windows(times, window);
    DecisionsFollowWindows(calls, key, limit, window, times);
    WindowShare(ds, ws, k, limit);
    FirstOnesAllowed(ds[Offset(ws, k)..Offset(ws, k) + |ws[k]|], limit);
  }

  // ---- Rejected callers ----

  ghost predicate WindowsOpen(values: map<string, Entry>, key: string, window: int, now: real) {
    key in values ==> values[key].expires <= now + window as real
  }

  /** The wait a caller is told lies between one second and one window. */
  lemma {:induction false} RetryAfterInWindow(
      values: map<string, Entry>, calls: seq<Call>, key: string, limit: int, window: int, i: nat)
    requires window >= 1 && Monotone(calls) && FixedPolicy(calls, key, limit, window)
    requires i < |calls| && calls[i].key == key && WindowsOpen(values, key, window, calls[0].now)
    ensures 1 <= Run(values, calls)[i].retryAfter <= window
    decreases |calls|
  {
    var c := calls[0];
    var next := values[c.key := Bump(Lookup(values, c.key), c.window, c.now)];
    if i > 0 {
      assert WindowsOpen(next, key, window, calls[1].now);
      RetryAfterInWindow(next, calls[1..], key, limit, window, i - 1);
    }
  }

  /** Calls on the key before its window closes leave the closing time as it is, and only count up. */
  lemma {:induction false} WindowKept(values: map<string, Entry>, calls: seq<Call>, key: string)
    requires key in values
    requires forall i | 0 <= i < |calls| && calls[i].key == key :: calls[i].now < values[key].expires
    ensures key in After(values, calls) && After(values, calls)[key].expires == values[key].expires
    ensures After(values, calls)[key].count >= values[key].count
    decreases |calls|
  {
    if calls != [] {
      var c := calls[0];
      WindowKept(values[c.key := Bump(Lookup(values, c.key), c.window, c.now)], calls[1..], key);
    }
  }

  /** The entry of a call's key after the calls before it and itself. */
  function EntryAfter(before: seq<Call>, c: Call): Entry {
    Bump(Lookup(After(map[], before), c.key), c.window, c.now)
  }

  /**
   A caller that calls again on its key, with only calls before the window's end in between, opens a new
   window if and only if that end is reached; before it, a refused caller is refused again.
   */
  lemma {:induction false} CallingAgain(before: seq<Call>, told: Call, between: seq<Call>, again: Call)
    requires told.limit >= 1 && again == told.(now := again.now)
    requires forall i | 0 <= i < |between| && between[i].key == told.key ::
             between[i].now < EntryAfter(before, told).expires
    ensures var ds := Run(map[], before + [told] + between + [again]);
            var entry, d := EntryAfter(before, told), ds[|before| + 1 + |between|];
            && ds[|before|] == Decide(entry, told.limit, told.now)
            && (d.count == 1 <==> entry.expires <= again.now)
            && (entry.expires <= again.now ==> d.allowed)
            && (again.now < entry.expires && !ds[|before|].allowed ==> !d.allowed)
  {
    var s0, entry := After(map[], before), EntryAfter(before, told);
    var s1 := s0[told.key := entry];
    assert before + [told] + between + [again] == before + ([told] + (between + [again]));
    RunAppend(map[], before, [told] + (between + [again]));
    assert ([told] + (between + [again]))[1..] == between + [again];
    RunAppend(s1, between, [again]);
    WindowKept(s1, between, told.key);
    assert Run(map[], before + [told] + between + [again])[|before| + 1 + |between|]
           == Run(After(s1, between), [again])[0];
  }

  /**
   A caller that was told to wait, waits that long, and is the first on its key after the window has
   closed opens a new window and is allowed, whatever the other keys did meanwhile.
   */
  lemma {:induction false} WaitingHelps(before: seq<Call>, told: Call, between: seq<Call>, again: Call)
    requires told.limit >= 1 && again == told.(now := again.now)
    requires var entry := EntryAfter(before, told);
             && again.now >= told.now + Decide(entry, told.limit, told.now).retryAfter as real
             && forall i | 0 <= i < |between| && between[i].key == told.key :: between[i].now < entry.expires
    ensures var trace := before + [told] + between + [again];
            Run(map[], trace)[|before| + 1 + |between|].allowed
            && Run(map[], trace)[|before| + 1 + |between|].count == 1
  {
    CallingAgain(before, told, between, again);
  }
}

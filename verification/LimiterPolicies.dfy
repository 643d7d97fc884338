/**
 What the configured policies mean for the subjects of `RateLimiter.check`: how many checks of one subject
 pass, on traces of checks of any subjects and categories.
 */
module LimiterPolicies {
  import opened Wrappers
  import opened RateLimit
  import opened RateLimitWindows
  import opened RedisBackend
  import opened SubjectKeys
  import opened Limiter
  import opened Texts

  // ---- The numbers of a policy ----

  /**
   The allowance of a subject: the limit of the policy or, in demo mode, the greatest whole number not above the
   limit times the factor, but at least one.
   */
  predicate AllowanceIs(n: int, policy: Policy, demo: bool, factor: real) {
    if !demo then n == policy.limit
    else
      var share := policy.limit as real * factor;
      (n == 1 && share < 2.0) || (n >= 2 && n as real <= share < n as real + 1.0)
  }

  /** The whole seconds of the policy's window, but at least one. */
  predicate WindowIs(n: int, policy: Policy) {
    (n == 1 && policy.window < 2.0) || (n >= 2 && n as real <= policy.window < n as real + 1.0)
  }

  lemma FloorIs(x: real, n: int)
    ensures x.Floor == n <==> n as real <= x < n as real + 1.0
  {
  }

  lemma {:induction false} AllowanceFor(n: int, policy: Policy, demo: bool, factor: real)
    ensures AllowanceIs(n, policy, demo, factor) <==> n == LimitFor(policy, demo, factor)
  {
    FloorIs(policy.limit as real * factor, n);
  }

  lemma {:induction false} WindowIsFor(n: int, policy: Policy)
    ensures WindowIs(n, policy) <==> n == WindowFor(policy)
  {
    FloorIs(policy.window, n);
  }

  // ---- Checks of one subject ----

  predicate IsSubject(settings: Settings, ask: Ask, category: Category, subject: string, demo: bool) {
    ask.category == category && ask.demo == demo && settings.digest(ask.subject) == settings.digest(subject)
  }

  predicate AllConfigured(settings: Settings, asks: seq<Ask>) {
    forall ask | ask in asks :: ask.category in settings.policies
  }

  function Checks(settings: Settings, asks: seq<Ask>): (checks: seq<Check>)
    requires AllConfigured(settings, asks)
    ensures |checks| == |asks| && forall i | 0 <= i < |asks| :: checks[i] == CheckOf(settings, asks[i])
  {
    seq(|asks|, i requires 0 <= i < |asks| => CheckOf(settings, asks[i]))
  }

  /** What a limiter answers to a trace of checks. */
  function Outcomes(settings: Settings, state: BackendState, asks: seq<Ask>): (os: seq<Outcome>)
    requires AllConfigured(settings, asks)
    ensures |os| == |asks|
  {
    RunChecks(Stores(state, map[]), Checks(settings, asks), settings.fallbackLimit)
  }

  /** The flagged elements, in order. */
  function Picked<T>(xs: seq<T>, flags: seq<bool>): seq<T>
    requires |flags| == |xs|
  {
    if xs == [] then [] else (if flags[0] then [xs[0]] else []) + Picked(xs[1..], flags[1..])
  }

  /** Which checks are of the subject. */
  function Of(settings: Settings, asks: seq<Ask>, category: Category, subject: string, demo: bool): (flags: seq<bool>)
    ensures |flags| == |asks|
  {
    seq(|asks|, i requires 0 <= i < |asks| => IsSubject(settings, asks[i], category, subject, demo))
  }

  function Nows(asks: seq<Ask>): (times: seq<real>)
    ensures |times| == |asks| && forall i | 0 <= i < |asks| :: times[i] == asks[i].now
  {
    seq(|asks|, i requires 0 <= i < |asks| => asks[i].now)
  }

  /** When the subject was checked. */
  function Times(settings: Settings, asks: seq<Ask>, category: Category, subject: string, demo: bool): seq<real> {
    Picked(Nows(asks), Of(settings, asks, category, subject, demo))
  }

  /** Which of its checks passed. */
  function Passes(
      settings: Settings, asks: seq<Ask>, os: seq<Outcome>, category: Category, subject: string, demo: bool): seq<bool>
    requires |os| == |asks|
  {
    Picked(seq(|os|, i requires 0 <= i < |os| => os[i].Passed?), Of(settings, asks, category, subject, demo))
  }

  /** How many of its checks at times in `[from, to)` passed. */
  function NumberPassed(
      settings: Settings, asks: seq<Ask>, os: seq<Outcome>, category: Category, subject: string, demo: bool,
      from: real, to: real): nat
    requires |os| == |asks|
  {
    if asks == [] then 0
    else
      (if IsSubject(settings, asks[0], category, subject, demo) && from <= asks[0].now < to && os[0].Passed?
       then 1 else 0)
      + NumberPassed(settings, asks[1..], os[1..], category, subject, demo, from, to)
  }

  ghost predicate InOrder(asks: seq<Ask>) {
    forall i, j | 0 <= i <= j < |asks| :: asks[i].now <= asks[j].now
  }

  /** Checks share a key exactly if they are of one subject. */
  lemma {:induction false} OneKeyPerSubject(settings: Settings, ask: Ask, category: Category, subject: string,
                                            demo: bool)
    ensures BuildSubjectKey(ask.category, ask.subject, ask.demo, settings.digest)
            == BuildSubjectKey(category, subject, demo, settings.digest)
            <==> IsSubject(settings, ask, category, subject, demo)
  {
    var d := settings.digest;
    KeyIsBody(ask.category, ask.subject, ask.demo, d);
    KeyIsBody(category, subject, demo, d);
    if BuildSubjectKey(ask.category, ask.subject, ask.demo, d) == BuildSubjectKey(category, subject, demo, d) {
      PrefixCancels(PREFIX, KeyBody(ask.category, ask.demo, d(ask.subject)), KeyBody(category, demo, d(subject)));
      BodiesAreDistinct(ask.category, ask.demo, d(ask.subject), category, demo, d(subject));
    }
  }

  // ---- Backends that answer ----

  predicate AllAnswered(asks: seq<Ask>) {
    forall ask | ask in asks :: ask.link.Up?
  }

  lemma {:induction false} AnsweredServed(checks: seq<Check>)
    requires forall check | check in checks :: check.link.Up?
    ensures |BackendServed(checks)| == |checks|
    ensures forall i | 0 <= i < |checks| :: BackendServed(checks)[i] == checks[i].served
  {
    if checks != [] { AnsweredServed(checks[1..]); }
  }

  lemma {:induction false} AnsweredVerdicts(stores: Stores, checks: seq<Check>, fallbackLimit: int)
    requires forall check | check in checks :: check.link.Up?
    ensures |BackendServed(checks)| == |checks|
    ensures forall i | 0 <= i < |checks| ::
              RunChecks(stores, checks, fallbackLimit)[i].Passed?
              <==> Verdicts(stores.backend, BackendServed(checks))[i].allowed
    decreases |checks|
  {
    if checks != [] {
      AnsweredServed(checks);
      AnsweredVerdicts(Next(stores, checks[0]), checks[1..], fallbackLimit);
      assert BackendServed(checks) == [checks[0].served] + BackendServed(checks[1..]);
    }
  }

  /** A fresh backend of either kind allows what a fresh in-memory one allows. */
  lemma {:induction false} FreshVerdicts(state: BackendState, served: seq<Served>)
    requires IsFresh(state) && Monotone(Calls(served))
    requires state.RedisState? ==> PurgesExpired(state.values, served)
    ensures forall i | 0 <= i < |served| ::
              Verdicts(state, served)[i].allowed == RateLimit.Run(map[], Calls(served))[i].allowed
  {
    match state
    case MemoryState(entries) => MemoryVerdicts(map[], served);
    case RedisState(values) =>
      RedisVerdicts(map[], served);
      RefinesFrom(map[], map[], served);
  }

  function CallOf(settings: Settings, ask: Ask): Call
    requires ask.category in settings.policies
  {
    CheckOf(settings, ask).served.call
  }

  function CallsOf(settings: Settings, asks: seq<Ask>): (calls: seq<Call>)
    requires AllConfigured(settings, asks)
    ensures |calls| == |asks| && forall i | 0 <= i < |asks| :: calls[i] == CallOf(settings, asks[i])
  {
    seq(|asks|, i requires 0 <= i < |asks| => CallOf(settings, asks[i]))
  }

  lemma {:induction false} PickedByKey(calls: seq<Call>, ds: seq<Decision>, flags: seq<bool>, key: string)
    requires |calls| == |ds| == |flags| && forall i | 0 <= i < |calls| :: flags[i] <==> calls[i].key == key
    ensures CallsOn(calls, key) == Picked(calls, flags) && DecisionsOn(calls, ds, key) == Picked(ds, flags)
  {
    if calls != [] { PickedByKey(calls[1..], ds[1..], flags[1..], key); }
  }

  lemma {:induction false} PickedAt(
      calls: seq<Call>, times: seq<real>, flags: seq<bool>, key: string, limit: int, window: int)
    requires |calls| == |times| == |flags|
    requires forall i | 0 <= i < |calls| && flags[i] :: calls[i] == Call(key, limit, window, times[i])
    ensures Picked(calls, flags) == CallsAt(key, limit, window, Picked(times, flags))
  {
    if calls != [] { PickedAt(calls[1..], times[1..], flags[1..], key, limit, window); }
  }

  lemma {:induction false} PickedAllowed(ds: seq<Decision>, passed: seq<bool>, flags: seq<bool>)
    requires |ds| == |passed| == |flags| && forall i | 0 <= i < |ds| :: passed[i] <==> ds[i].allowed
    ensures |Picked(passed, flags)| == |Picked(ds, flags)|
    ensures forall i | 0 <= i < |Picked(ds, flags)| :: Picked(passed, flags)[i] <==> Picked(ds, flags)[i].allowed
  {
    if ds != [] { PickedAllowed(ds[1..], passed[1..], flags[1..]); }
  }

  lemma {:induction false} PickedSorted(times: seq<real>, flags: seq<bool>)
    requires |times| == |flags| && Sorted(times)
    ensures Sorted(Picked(times, flags))
    ensures forall i | 0 <= i < |Picked(times, flags)| :: times[0] <= Picked(times, flags)[i]
  {
    if |times| > 1 {
      var rest := Picked(times[1..], flags[1..]);
      PickedSorted(times[1..], flags[1..]);
      assert forall i | 0 <= i < |rest| :: times[0] <= times[1] == times[1..][0] <= rest[i];
    }
  }

  /** The calls of the subject's checks, which are those of its key. */
  lemma {:induction false} SubjectCall(
      settings: Settings, ask: Ask, category: Category, subject: string, demo: bool, limit: int, window: int)
    requires ask.category in settings.policies && category in settings.policies
    requires limit == LimitFor(settings.policies[category], demo, settings.demoFactor)
    requires window == WindowFor(settings.policies[category])
    ensures var key := BuildSubjectKey(category, subject, demo, settings.digest);
            && (IsSubject(settings, ask, category, subject, demo) <==> CallOf(settings, ask).key == key)
            && (IsSubject(settings, ask, category, subject, demo) ==>
                  CallOf(settings, ask) == Call(key, limit, window, ask.now))
  {
    OneKeyPerSubject(settings, ask, category, subject, demo);
  }

  /** The calls and decisions of a trace that are the subject's, whatever its key is. */
  lemma {:induction false} SubjectTrace(
      settings: Settings, asks: seq<Ask>, ds: seq<Decision>, category: Category, subject: string, demo: bool,
      limit: int, window: int)
    returns (key: string)
    requires AllConfigured(settings, asks) && category in settings.policies && |ds| == |asks|
    requires limit == LimitFor(settings.policies[category], demo, settings.demoFactor)
    requires window == WindowFor(settings.policies[category])
    ensures var flags := Of(settings, asks, category, subject, demo);
            && CallsOn(CallsOf(settings, asks), key)
               == CallsAt(key, limit, window, Times(settings, asks, category, subject, demo))
            && DecisionsOn(CallsOf(settings, asks), ds, key) == Picked(ds, flags)
  {
    key := BuildSubjectKey(category, subject, demo, settings.digest);
    var flags := Of(settings, asks, category, subject, demo);
    forall i | 0 <= i < |asks|
      ensures flags[i] <==> CallsOf(settings, asks)[i].key == key
      ensures flags[i] ==> CallsOf(settings, asks)[i] == Call(key, limit, window, Nows(asks)[i])
    {
      SubjectCall(settings, asks[i], category, subject, demo, limit, window);
    }
    PickedByKey(CallsOf(settings, asks), ds, flags, key);
    PickedAt(CallsOf(settings, asks), Nows(asks), flags, key, limit, window);
  }

  /** On a fresh answering backend the outcomes are the decisions of the in-memory one. */
  lemma {:induction false} AnsweredOutcomes(settings: Settings, state: BackendState, asks: seq<Ask>)
    requires AllConfigured(settings, asks) && AllAnswered(asks) && InOrder(asks)
    requires IsFresh(state) && KeepsLiveKeys(state, Checks(settings, asks))
    ensures forall i | 0 <= i < |asks| ::
              Outcomes(settings, state, asks)[i].Passed? <==> RateLimit.Run(map[], CallsOf(settings, asks))[i].allowed
  {
    var checks := Checks(settings, asks);
    AnsweredServed(checks);
    assert Calls(BackendServed(checks)) == CallsOf(settings, asks);
    AnsweredVerdicts(Stores(state, map[]), checks, settings.fallbackLimit);
    FreshVerdicts(state, BackendServed(checks));
  }

  /**
   With a fresh backend of either kind that answers, and whatever other subjects do: the checks of a subject fall
   into windows of the policy's length, each opened by the first check after the one before, and the n-th check
   in a window passes if and only if n does not exceed the subject's allowance.
   */
  lemma {:induction false} NthCheckPasses(
      settings: Settings, state: BackendState, asks: seq<Ask>, category: Category, subject: string, demo: bool,
      allowance: int, window: int, k: nat, n: nat)
    requires AllConfigured(settings, asks) && AllAnswered(asks) && InOrder(asks) && category in settings.policies
    requires IsFresh(state) && KeepsLiveKeys(state, Checks(settings, asks))
    requires AllowanceIs(allowance, settings.policies[category], demo, settings.demoFactor)
    requires WindowIs(window, settings.policies[category])
    requires var ws := Windows(Times(settings, asks, category, subject, demo), window); k < |ws| && 1 <= n <= |ws[k]|
    ensures var ws := Windows(Times(settings, asks, category, subject, demo), window);
            var passes := Passes(settings, asks, Outcomes(settings, state, asks), category, subject, demo);
            && |passes| == Offset(ws, |ws|) && Offset(ws, k) + n <= |passes|
            && (passes[Offset(ws, k) + n - 1] <==> n <= allowance)
  {
    var times := Times(settings, asks, category, subject, demo);
    SubjectCounts(settings, state, asks, category, subject, demo, allowance, window);
    OrdinalsLength(Windows(times, window));
    OrdinalAt(Windows(times, window), k, n - 1);
  }

  /** The subject's checks are counted by their places in their windows. */
  lemma {:induction false} SubjectCounts(
      settings: Settings, state: BackendState, asks: seq<Ask>, category: Category, subject: string, demo: bool,
      allowance: int, window: int)
    requires AllConfigured(settings, asks) && AllAnswered(asks) && InOrder(asks) && category in settings.policies
    requires IsFresh(state) && KeepsLiveKeys(state, Checks(settings, asks))
    requires AllowanceIs(allowance, settings.policies[category], demo, settings.demoFactor)
    requires WindowIs(window, settings.policies[category])
    ensures var counts := Ordinals(Windows(Times(settings, asks, category, subject, demo), window));
            var passes := Passes(settings, asks, Outcomes(settings, state, asks), category, subject, demo);
            |passes| == |counts| && forall i | 0 <= i < |passes| :: passes[i] <==> counts[i] <= allowance
  {
    var times, os := Times(settings, asks, category, subject, demo), Outcomes(settings, state, asks);
    var ds, passed := RateLimit.Run(map[], CallsOf(settings, asks)),
        seq(|os|, i requires 0 <= i < |os| => os[i].Passed?);
    AllowanceFor(allowance, settings.policies[category], demo, settings.demoFactor);
    WindowIsFor(window, settings.policies[category]);
    var key := SubjectTrace(settings, asks, ds, category, subject, demo, allowance, window);
    PickedSorted(Nows(asks), Of(settings, asks, category, subject, demo));
    DecisionsFollowWindows(CallsOf(settings, asks), key, allowance, window, times);
    AnsweredOutcomes(settings, state, asks);
    PickedAllowed(ds, passed, Of(settings, asks, category, subject, demo));
  }

  // ---- Backends that fail ----

  /**
   One answer. A check is unavailable if and only if the backend's answer does not arrive and the policy is
   fail-closed; a refusal says to wait at least a second; and without the backend the check is counted in the
   fallback and its limit decides.
   */
  lemma {:induction false} OneAnswer(settings: Settings, stores: Stores, ask: Ask)
    requires ask.category in settings.policies
    ensures var policy := settings.policies[ask.category];
            var o, next := Answer(stores, CheckOf(settings, ask), settings.fallbackLimit),
                Next(stores, CheckOf(settings, ask));
            && (o.Unavailable? <==> !ask.link.Up? && policy.failClosed)
            && (o.Exceeded? ==> o.retryAfter >= 1)
            && (!ask.link.Up? && !policy.failClosed ==>
                  var key := BuildSubjectKey(ask.category, ask.subject, ask.demo, settings.digest);
                  && key in next.fallback
                  && next.fallback[key].count
                     == (if key in stores.fallback && ask.now < stores.fallback[key].expires
                         then stores.fallback[key].count + 1 else 1)
                  && (o.Passed? <==> next.fallback[key].count <= settings.fallbackLimit))
            && (ask.link.Down? ==> next.backend == stores.backend)
            && (ask.link.Up? || policy.failClosed ==> next.fallback == stores.fallback)
  {
  }

  lemma {:induction false} SubjectPassed(
      settings: Settings, asks: seq<Ask>, os: seq<Outcome>, category: Category, subject: string, demo: bool,
      from: real, to: real)
    requires AllConfigured(settings, asks) && |os| == |asks|
    ensures NumberPassed(settings, asks, os, category, subject, demo, from, to)
            == PassedOn(Checks(settings, asks), os, BuildSubjectKey(category, subject, demo, settings.digest), from, to)
  {
    if asks != [] {
      OneKeyPerSubject(settings, asks[0], category, subject, demo);
      SubjectPassed(settings, asks[1..], os[1..], category, subject, demo, from, to);
      assert Checks(settings, asks)[1..] == Checks(settings, asks[1..]);
    }
  }

  lemma {:induction false} SubjectPolicy(
      settings: Settings, asks: seq<Ask>, category: Category, subject: string, demo: bool, limit: int, window: int)
    requires AllConfigured(settings, asks) && category in settings.policies && InOrder(asks)
    requires limit == LimitFor(settings.policies[category], demo, settings.demoFactor)
    requires window == WindowFor(settings.policies[category])
    ensures Ordered(Checks(settings, asks))
    ensures OnePolicy(Checks(settings, asks), BuildSubjectKey(category, subject, demo, settings.digest), limit, window,
                      settings.policies[category].failClosed)
  {
    forall i | 0 <= i < |asks|
      ensures BuildSubjectKey(asks[i].category, asks[i].subject, asks[i].demo, settings.digest)
              == BuildSubjectKey(category, subject, demo, settings.digest)
              <==> IsSubject(settings, asks[i], category, subject, demo)
    {
      OneKeyPerSubject(settings, asks[i], category, subject, demo);
    }
  }

  /**
   Over every trace of checks, however outages fall: within one window length at most twice the allowance less one
   of a subject's checks pass under a fail-closed policy, and at most twice the fallback limit less one more under
   a fail-open one.
   */
  lemma {:induction false} SubjectsAreBounded(
      settings: Settings, state: BackendState, asks: seq<Ask>, category: Category, subject: string, demo: bool,
      allowance: nat, window: int, from: real)
    requires AllConfigured(settings, asks) && InOrder(asks) && category in settings.policies
    requires IsFresh(state) && KeepsLiveKeys(state, Checks(settings, asks))
    requires AllowanceIs(allowance, settings.policies[category], demo, settings.demoFactor) && allowance >= 1
    requires WindowIs(window, settings.policies[category]) && settings.fallbackLimit >= 1
    ensures NumberPassed(settings, asks, Outcomes(settings, state, asks), category, subject, demo,
                         from, from + window as real)
            <= 2 * allowance - 1 + if settings.policies[category].failClosed then 0 else 2 * settings.fallbackLimit - 1
  {
    var key := BuildSubjectKey(category, subject, demo, settings.digest);
    AllowanceFor(allowance, settings.policies[category], demo, settings.demoFactor);
    WindowIsFor(window, settings.policies[category]);
    SubjectPolicy(settings, asks, category, subject, demo, allowance, window);
    SubjectPassed(settings, asks, Outcomes(settings, state, asks), category, subject, demo, from,
                  from + window as real);
    ChecksAreBounded(state, Checks(settings, asks), key, allowance, window, settings.policies[category].failClosed,
                     settings.fallbackLimit, from);
  }
}

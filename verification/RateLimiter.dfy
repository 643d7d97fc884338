/**
 The Redis backend as a refinement of the in-memory one, the subject keys, and `RateLimiter.check`
 with its fallback.
 */
module RedisBackend {
  import opened Wrappers
  import opened RateLimit

  /** A Redis counter; `expiresAt` is absent between INCR and EXPIRE of one script. */
  datatype Value = Value(count: nat, expiresAt: Option<real>)

  /** A key is absent once its expiry is reached, whether or not the server has removed it yet. */
  function Live(values: map<string, Value>, key: string, now: real): Option<Value> {
    if key in values && (values[key].expiresAt.Some? ==> now < values[key].expiresAt.value)
    then Some(values[key]) else None
  }

  /** To the nearest whole number, halves up. */
  function Round(x: real): int {
    (x + 0.5).Floor
  }

  /** The reply to TTL for a stored key: its remaining time in whole seconds, or -1 for a key without expiry. */
  function TtlReply(value: Value, now: real): int {
    if value.expiresAt.Some? then Round(value.expiresAt.value - now) else -1
  }

  class RedisServer {
    var values: map<string, Value>

    constructor ()
      ensures values == map[]
    {
      values := map[];
    }

    /** Redis may drop expired keys at any moment between two scripts. */
    method Purge(keys: set<string>, now: real)
      requires forall k | k in keys :: Live(values, k, now).None?
      modifies this
      ensures values == old(values) - keys
    {
      values := values - keys;
    }

    method Incr(key: string, now: real) returns (count: nat)
      modifies this
      ensures var live := Live(old(values), key, now);
              values == old(values)[key := if live.Some? then live.value.(count := live.value.count + 1)
                                    else Value(1, None)]
      ensures count == values[key].count
    {
      var live := Live(values, key, now);
      var value := if live.Some? then live.value.(count := live.value.count + 1) else Value(1, None);
      values := values[key := value];
      count := value.count;
    }

    method Expire(key: string, seconds: int, now: real)
      requires key in values
      modifies this
      ensures values == old(values)[key := old(values)[key].(expiresAt := Some(now + seconds as real))]
    {
      values := values[key := values[key].(expiresAt := Some(now + seconds as real))];
    }

    method Ttl(key: string, now: real) returns (ttl: int)
      requires key in values
      ensures ttl == TtlReply(values[key], now)
    {
      ttl := -1;
      if values[key].expiresAt.Some? { ttl := Round(values[key].expiresAt.value - now); }
    }
  }

  /** The stored value after the script. */
  function ScriptValue(live: Option<Value>, window: int, now: real): Value {
    var counted := if live.Some? then live.value.(count := live.value.count + 1) else Value(1, None);
    if counted.count == 1 then counted.(expiresAt := Some(now + window as real)) else counted
  }

  /** One request as Redis sees it, and the expired keys that Redis drops before it. */
  datatype Served = Served(call: Call, purged: set<string>)

  ghost predicate OnlyExpired(values: map<string, Value>, keys: set<string>, now: real) {
    forall k | k in keys :: Live(values, k, now).None?
  }

  /** The server's counters after the script of a request. */
  function Scripted(values: map<string, Value>, served: Served): (after: map<string, Value>)
    ensures served.call.key in after
  {
    var c, kept := served.call, values - served.purged;
    kept[c.key := ScriptValue(Live(kept, c.key, c.now), c.window, c.now)]
  }

  function DecideScripted(value: Value, limit: int, now: real): Decision {
    Decision(value.count <= limit, Max(1, TtlReply(value, now)), value.count)
  }

  class RedisAtomicBackend {
    const client: RedisServer

    constructor (client: RedisServer)
      ensures this.client == client
    {
      this.client := client;
    }

    /** The Lua script runs as one step; before it, the server may drop expired keys. */
    method Increment(key: string, limit: int, window: int, purged: set<string>, now: real) returns (d: Decision)
      requires OnlyExpired(client.values, purged, now)
      modifies client
      ensures client.values == Scripted(old(client.values), Served(Call(key, limit, window, now), purged))
      ensures d == DecideScripted(client.values[key], limit, now)
    {
      client.Purge(purged, now);
      var count := client.Incr(key, now);
      if count == 1 {
        client.Expire(key, window, now);
      }
      var ttl := client.Ttl(key, now);
      d := Decision(count <= limit, Max(1, ttl), count);
    }
  }

  function Run(values: map<string, Value>, calls: seq<Served>): (ds: seq<Decision>)
    ensures |ds| == |calls|
    decreases |calls|
  {
    if calls == [] then []
    else
      var c := calls[0].call;
      var after := Scripted(values, calls[0]);
      [DecideScripted(after[c.key], c.limit, c.now)] + Run(after, calls[1..])
  }

  /** Each purge of the trace drops only keys that have expired at that moment. */
  ghost predicate PurgesExpired(values: map<string, Value>, calls: seq<Served>)
    decreases |calls|
  {
    calls == [] ||
    (OnlyExpired(values, calls[0].purged, calls[0].call.now) && PurgesExpired(Scripted(values, calls[0]), calls[1..]))
  }

  function Calls(served: seq<Served>): (calls: seq<Call>)
    ensures |calls| == |served|
    ensures forall i | 0 <= i < |calls| :: calls[i] == served[i].call
  {
    if served == [] then [] else [served[0].call] + Calls(served[1..])
  }

  /** From `now` on the two stores have the same live counters. */
  ghost predicate SameCounters(redis: map<string, Value>, memory: map<string, Entry>, now: real) {
    && (forall k | Live(redis, k, now).Some? ::
          && k in memory && redis[k].expiresAt == Some(memory[k].expires) && redis[k].count == memory[k].count)
    && (forall k | k in memory && now < memory[k].expires :: Live(redis, k, now).Some?)
    && (forall k | k in memory :: memory[k].count >= 1)
  }

  lemma {:induction false} OneScript(redis: map<string, Value>, memory: map<string, Entry>, served: Served)
    requires SameCounters(redis, memory, served.call.now) && OnlyExpired(redis, served.purged, served.call.now)
    ensures var c := served.call;
            var value, entry := Scripted(redis, served)[c.key], Bump(Lookup(memory, c.key), c.window, c.now);
            && value.count == entry.count && value.expiresAt == Some(entry.expires)
            && SameCounters(Scripted(redis, served), memory[c.key := entry], c.now)
  {
  }

  lemma {:induction false} SameCountersLater(
      redis: map<string, Value>, memory: map<string, Entry>, now: real, later: real)
    requires SameCounters(redis, memory, now) && now <= later
    ensures SameCounters(redis, memory, later)
  {
  }

  lemma {:induction false} OneScriptOn(redis: map<string, Value>, memory: map<string, Entry>, served: seq<Served>)
    requires served != [] && SameCounters(redis, memory, served[0].call.now)
    requires Monotone(Calls(served)) && PurgesExpired(redis, served)
    ensures var c := served[0].call;
            |served| > 1 ==> SameCounters(
              Scripted(redis, served[0]), memory[c.key := Bump(Lookup(memory, c.key), c.window, c.now)],
              served[1].call.now)
    ensures Monotone(Calls(served[1..])) && Calls(served)[1..] == Calls(served[1..])
  {
    var c := served[0].call;
    OneScript(redis, memory, served[0]);
    assert Calls(served)[1..] == Calls(served[1..]);
    if |served| > 1 {
      assert Calls(served)[0].now <= Calls(served)[1].now;
      SameCountersLater(Scripted(redis, served[0]), memory[c.key := Bump(Lookup(memory, c.key), c.window, c.now)],
                        c.now, served[1].call.now);
    }
  }

  lemma {:induction false} RefinesFrom(redis: map<string, Value>, memory: map<string, Entry>, served: seq<Served>)
    requires served != [] ==> SameCounters(redis, memory, served[0].call.now)
    requires Monotone(Calls(served)) && PurgesExpired(redis, served)
    ensures forall i | 0 <= i < |served| :: SameVerdict(Run(redis, served)[i], RateLimit.Run(memory, Calls(served))[i])
    decreases |served|
  {
    if served != [] {
      var c := served[0].call;
      var redis', memory' := Scripted(redis, served[0]), memory[c.key := Bump(Lookup(memory, c.key), c.window, c.now)];
      OneScript(redis, memory, served[0]);
      OneScriptOn(redis, memory, served);
      RefinesFrom(redis', memory', served[1..]);
      assert Run(redis, served)[1..] == Run(redis', served[1..]);
      assert RateLimit.Run(memory, Calls(served))[1..] == RateLimit.Run(memory', Calls(served[1..]));
    }
  }

  /** The same count and verdict; Redis rounds the wait where the in-memory backend rounds it up. */
  predicate SameVerdict(redis: Decision, memory: Decision) {
    && redis.count == memory.count && redis.allowed == memory.allowed
    && 1 <= redis.retryAfter && memory.retryAfter - 1 <= redis.retryAfter <= memory.retryAfter
  }

  /**
   On every ordered trace over any keys, limits and windows, and however Redis times the removal
   of expired keys, the two backends return the same `count` and the same `allowed`, and Redis the same
   `retry_after` or one second less.
   */
  lemma {:induction false} RedisRefinesMemory(served: seq<Served>, i: nat)
    requires Monotone(Calls(served)) && PurgesExpired(map[], served) && i < |served|
    ensures Run(map[], served)[i].count == RateLimit.Run(map[], Calls(served))[i].count
    ensures Run(map[], served)[i].allowed == RateLimit.Run(map[], Calls(served))[i].allowed
    ensures var wait := RateLimit.Run(map[], Calls(served))[i].retryAfter;
            1 <= Run(map[], served)[i].retryAfter && wait - 1 <= Run(map[], served)[i].retryAfter <= wait
  {
    RefinesFrom(map[], map[], served);
  }
}

module SubjectKeys {
  import opened Texts

  datatype Category = Auth | Ai | Upload | Export | Destructive | Read

  function Value(category: Category): string {
    match category
    case Auth => "auth"
    case Ai => "ai"
    case Upload => "upload"
    case Export => "export"
    case Destructive => "destructive"
    case Read => "read"
  }

  function Mode(demo: bool): string {
    if demo then "demo" else "standard"
  }

  const PREFIX := "operations-ai:rate:"

  /** `build_subject_key`, with the hex digest of the subject as a parameter. */
  function BuildSubjectKey(category: Category, source: string, demo: bool, digest: string -> string): string {
    PREFIX + Value(category) + ":" + Mode(demo) + ":" + digest(source)
  }

  lemma {:induction false} NamesAreDistinct(category: Category, category': Category)
    ensures ':' !in Value(category)
    ensures Value(category) == Value(category') ==> category == category'
  {
  }

  function KeyBody(category: Category, demo: bool, digested: string): string {
    Value(category) + [':'] + (Mode(demo) + [':'] + digested)
  }

  lemma {:induction false} BodiesAreDistinct(
      category: Category, demo: bool, digested: string, category': Category, demo': bool, digested': string)
    requires KeyBody(category, demo, digested) == KeyBody(category', demo', digested')
    ensures category == category' && demo == demo' && digested == digested'
  {
    NamesAreDistinct(category, category');
    NamesAreDistinct(category', category);
    SplitUnique(Value(category), Mode(demo) + [':'] + digested, Value(category'), Mode(demo') + [':'] + digested', ':');
    ModesAreDistinct(demo, demo');
    SplitUnique(Mode(demo), digested, Mode(demo'), digested', ':');
  }

  lemma {:induction false} ModesAreDistinct(demo: bool, demo': bool)
    ensures ':' !in Mode(demo) && ':' !in Mode(demo')
    ensures Mode(demo) == Mode(demo') ==> demo == demo'
  {
  }

  /** With a digest that separates the two subjects, distinct (category, mode, subject) triples have distinct keys. */
  lemma {:induction false} KeysAreDistinct(
      category: Category, source: string, demo: bool, category': Category, source': string, demo': bool,
      digest: string -> string)
    requires digest(source) == digest(source') ==> source == source'
    ensures BuildSubjectKey(category, source, demo, digest) == BuildSubjectKey(category', source', demo', digest)
            <==> category == category' && source == source' && demo == demo'
  {
    if BuildSubjectKey(category, source, demo, digest) == BuildSubjectKey(category', source', demo', digest) {
      KeyIsBody(category, source, demo, digest);
      KeyIsBody(category', source', demo', digest);
      PrefixCancels(PREFIX, KeyBody(category, demo, digest(source)), KeyBody(category', demo', digest(source')));
      BodiesAreDistinct(category, demo, digest(source), category', demo', digest(source'));
    }
  }

  lemma {:induction false} KeyIsBody(category: Category, source: string, demo: bool, digest: string -> string)
    ensures BuildSubjectKey(category, source, demo, digest) == PREFIX + KeyBody(category, demo, digest(source))
  {
  }
}

module Limiter {
  import opened Wrappers
  import opened RateLimit
  import opened RedisBackend
  import opened SubjectKeys

  datatype Policy = Policy(limit: int, window: real, countFailures: bool, failClosed: bool)

  /** A returned decision, RateLimitExceeded, or RateLimitBackendUnavailable. */
  datatype Outcome = Passed(decision: Decision) | Exceeded(retryAfter: int) | Unavailable

  /** `int(x)` of Python: truncation toward zero. */
  function Truncate(x: real): int {
    if x < 0.0 then -((-x).Floor) else x.Floor
  }

  function LimitFor(policy: Policy, demo: bool, demoFactor: real): int {
    if demo then Max(1, (policy.limit as real * demoFactor).Floor) else policy.limit
  }

  function WindowFor(policy: Policy): int {
    Max(1, Truncate(policy.window))
  }

  function Judge(decision: Decision): Outcome {
    if decision.allowed then Passed(decision) else Exceeded(Max(1, decision.retryAfter))
  }

  /** The limiter's backend is either of the two. */
  datatype Backend = Memory(memory: InMemoryAtomicBackend) | Redis(redis: RedisAtomicBackend)

  datatype BackendState = MemoryState(entries: map<string, Entry>) | RedisState(values: map<string, Value>)

  /**
   What becomes of a request to the backend: it answers; it raises before counting; or it counts and the
   answer is lost. (The in-memory backend always answers.)
   */
  datatype Link = Up | Down | Lost

  /** One call of `check`; Redis may have dropped expired keys before. */
  datatype Check = Check(served: Served, failClosed: bool, link: Link)

  datatype Stores = Stores(backend: BackendState, fallback: map<string, Entry>)

  function Bumped(values: map<string, Entry>, c: Call): map<string, Entry> {
    values[c.key := Bump(Lookup(values, c.key), c.window, c.now)]
  }

  /** The backend after it has counted a request, and what it decides. */
  function Counted(state: BackendState, served: Served): BackendState {
    match state
    case MemoryState(entries) => MemoryState(Bumped(entries, served.call))
    case RedisState(values) => RedisState(Scripted(values, served))
  }

  function Verdict(state: BackendState, served: Served): Decision {
    var c := served.call;
    match state
    case MemoryState(entries) => Decide(Bumped(entries, c)[c.key], c.limit, c.now)
    case RedisState(values) => DecideScripted(Scripted(values, served)[c.key], c.limit, c.now)
  }

  function Next(stores: Stores, check: Check): Stores {
    var backend := if check.link.Down? then stores.backend else Counted(stores.backend, check.served);
    var fallback :=
      if check.link.Up? || check.failClosed then stores.fallback else Bumped(stores.fallback, check.served.call);
    Stores(backend, fallback)
  }

  function Answer(stores: Stores, check: Check, fallbackLimit: int): Outcome {
    var c := check.served.call;
    if check.link.Up? then Judge(Verdict(stores.backend, check.served))
    else if check.failClosed then Unavailable
    else Judge(Decide(Bumped(stores.fallback, c)[c.key], fallbackLimit, c.now))
  }

  /** The arguments of the limiter, and of one call of `check`. */
  datatype Settings = Settings(
    policies: map<Category, Policy>, demoFactor: real, fallbackLimit: int, digest: string -> string)

  datatype Ask = Ask(category: Category, subject: string, demo: bool, link: Link, purged: set<string>, now: real)

  function CheckOf(settings: Settings, ask: Ask): Check
    requires ask.category in settings.policies
  {
    var policy := settings.policies[ask.category];
    var call := Call(
      BuildSubjectKey(ask.category, ask.subject, ask.demo, settings.digest),
      LimitFor(policy, ask.demo, settings.demoFactor), WindowFor(policy), ask.now);
    Check(Served(call, ask.purged), policy.failClosed, ask.link)
  }

  class RateLimiter {
    const backend: Backend
    const fallback: InMemoryAtomicBackend
    const policies: map<Category, Policy>
    const demoFactor: real
    const localFallbackLimit: int
    const digest: string -> string

    constructor (backend: Backend, policies: map<Category, Policy>, demoFactor: real,
                 localFallbackLimit: int, digest: string -> string)
      ensures this.backend == backend && fresh(fallback) && fallback.values == map[]
      ensures this.policies == policies && this.demoFactor == demoFactor
      ensures this.localFallbackLimit == localFallbackLimit && this.digest == digest
    {
      this.backend, this.policies, this.demoFactor := backend, policies, demoFactor;
      this.localFallbackLimit, this.digest := localFallbackLimit, digest;
      fallback := new InMemoryAtomicBackend();
    }

    /** The object that holds the backend's counters. */
    ghost function Counters(): object {
      match backend
      case Memory(memory) => memory
      case Redis(redis) => redis.client
    }

    ghost function BackendContents(): BackendState
      reads Counters()
    {
      match backend
      case Memory(memory) => MemoryState(memory.values)
      case Redis(redis) => RedisState(redis.client.values)
    }

    ghost function Contents(): Stores
      reads Counters(), fallback
    {
      Stores(BackendContents(), fallback.values)
    }

    /** What Redis may drop now; the in-memory backend drops nothing by itself. */
    ghost predicate MayDrop(purged: set<string>, now: real)
      reads Counters()
    {
      match backend
      case Memory(_) => true
      case Redis(redis) => OnlyExpired(redis.client.values, purged, now)
    }

    /** `self._backend.increment(...)`. */
    method CountOnBackend(key: string, limit: int, window: int, purged: set<string>, now: real)
      returns (decision: Decision)
      requires MayDrop(purged, now)
      modifies Counters()
      ensures BackendContents() == Counted(old(BackendContents()), Served(Call(key, limit, window, now), purged))
      ensures decision == Verdict(old(BackendContents()), Served(Call(key, limit, window, now), purged))
    {
      match backend {
        case Memory(memory) => decision := memory.Increment(key, limit, window, now);
        case Redis(redis) => decision := redis.Increment(key, limit, window, purged, now);
      }
    }

    function Config(): Settings {
      Settings(policies, demoFactor, localFallbackLimit, digest)
    }

    method CheckRate(category: Category, subject: string, demo: bool, link: Link, purged: set<string>, now: real)
      returns (o: Outcome)
      requires category in policies && Counters() != fallback && MayDrop(purged, now)
      modifies Counters(), fallback
      ensures var check := CheckOf(Config(), Ask(category, subject, demo, link, purged, now));
              Contents() == Next(old(Contents()), check) && o == Answer(old(Contents()), check, localFallbackLimit)
    {
      var policy := policies[category];
      var limit := if demo then Max(1, (policy.limit as real * demoFactor).Floor) else policy.limit;
      var window := Max(1, Truncate(policy.window));
      var key := BuildSubjectKey(category, subject, demo, digest);
      assert CheckOf(Config(), Ask(category, subject, demo, link, purged, now))
          == Check(Served(Call(key, limit, window, now), purged), policy.failClosed, link);
      o := CheckKey(key, limit, window, policy.failClosed, link, purged, now);
    }

    /** The part of `check` behind the key: backend, refusal or fallback, verdict. */
    method CheckKey(
        key: string, limit: int, window: int, failClosed: bool, link: Link, purged: set<string>, now: real)
      returns (o: Outcome)
      requires Counters() != fallback && MayDrop(purged, now)
      modifies Counters(), fallback
      ensures var check := Check(Served(Call(key, limit, window, now), purged), failClosed, link);
              Contents() == Next(old(Contents()), check) && o == Answer(old(Contents()), check, localFallbackLimit)
    {
      var decision := Decision(false, 0, 0);
      if !link.Down? { decision := CountOnBackend(key, limit, window, purged, now); }
      if !link.Up? {
        if failClosed { return Unavailable; }
        decision := fallback.Increment(key, localFallbackLimit, window, now);
      }
      if !decision.allowed { return Exceeded(Max(1, decision.retryAfter)); }
      return Passed(decision);
    }
  }

  // ---- Traces of checks, with outages ----

  function RunChecks(stores: Stores, checks: seq<Check>, fallbackLimit: int): (os: seq<Outcome>)
    ensures |os| == |checks|
    decreases |checks|
  {
    if checks == [] then []
    else [Answer(stores, checks[0], fallbackLimit)] + RunChecks(Next(stores, checks[0]), checks[1..], fallbackLimit)
  }

  predicate CountsFor(c: Call, key: string, from: real, to: real) {
    c.key == key && from <= c.now < to
  }

  /** How many checks of the key pass at times in `[from, to)`. */
  function PassedOn(checks: seq<Check>, os: seq<Outcome>, key: string, from: real, to: real): nat
    requires |checks| == |os|
  {
    if checks == [] then 0
    else
      (if CountsFor(checks[0].served.call, key, from, to) && os[0].Passed? then 1 else 0)
      + PassedOn(checks[1..], os[1..], key, from, to)
  }

  /** How many the backend admitted without the limiter learning of it. */
  function LostOn(state: BackendState, checks: seq<Check>, key: string, from: real, to: real): nat
    decreases |checks|
  {
    if checks == [] then 0
    else if checks[0].link.Down? then LostOn(state, checks[1..], key, from, to)
    else
      (if checks[0].link.Lost? && CountsFor(checks[0].served.call, key, from, to)
       && Verdict(state, checks[0].served).allowed
       then 1 else 0)
      + LostOn(Counted(state, checks[0].served), checks[1..], key, from, to)
  }

  /** The requests that the backend counts, and the calls the fallback serves. */
  function BackendServed(checks: seq<Check>): seq<Served> {
    if checks == [] then [] else (if checks[0].link.Down? then [] else [checks[0].served]) + BackendServed(checks[1..])
  }

  function FallbackCalls(checks: seq<Check>, fallbackLimit: int): seq<Call> {
    if checks == [] then []
    else
      (if checks[0].link.Up? || checks[0].failClosed then [] else [checks[0].served.call.(limit := fallbackLimit)])
      + FallbackCalls(checks[1..], fallbackLimit)
  }

  /** What the backend decides on a list of requests. */
  function Verdicts(state: BackendState, served: seq<Served>): (ds: seq<Decision>)
    ensures |ds| == |served|
    decreases |served|
  {
    if served == [] then [] else [Verdict(state, served[0])] + Verdicts(Counted(state, served[0]), served[1..])
  }

  function BackendAdmits(state: BackendState, served: seq<Served>, key: string, from: real, to: real): nat {
    Admitted(Calls(served), Verdicts(state, served), key, from, to)
  }

  function AdmittedBy(values: map<string, Entry>, calls: seq<Call>, key: string, from: real, to: real): nat {
    Admitted(calls, RateLimit.Run(values, calls), key, from, to)
  }

  lemma {:induction false} OneMore(
      values: map<string, Entry>, c: Call, rest: seq<Call>, key: string, from: real, to: real)
    ensures AdmittedBy(values, [c] + rest, key, from, to)
            == (if CountsFor(c, key, from, to) && Decide(Bumped(values, c)[c.key], c.limit, c.now).allowed
                then 1 else 0)
               + AdmittedBy(Bumped(values, c), rest, key, from, to)
  {
  }

  lemma {:induction false} OneMoreServed(
      state: BackendState, x: Served, rest: seq<Served>, key: string, from: real, to: real)
    ensures BackendAdmits(state, [x] + rest, key, from, to)
            == (if CountsFor(x.call, key, from, to) && Verdict(state, x).allowed then 1 else 0)
               + BackendAdmits(Counted(state, x), rest, key, from, to)
  {
  }

  lemma {:induction false} PassedFirst(
      stores: Stores, checks: seq<Check>, fallbackLimit: int, key: string, from: real, to: real)
    requires checks != []
    ensures PassedOn(checks, RunChecks(stores, checks, fallbackLimit), key, from, to)
            == (if CountsFor(checks[0].served.call, key, from, to)
                && Answer(stores, checks[0], fallbackLimit).Passed? then 1 else 0)
               + PassedOn(checks[1..], RunChecks(Next(stores, checks[0]), checks[1..], fallbackLimit), key, from, to)
  {
  }

  /**
   What passes, plus what the backend admitted but could not say, is what the backend admits plus what
   the fallback admits.
   */
  lemma {:induction false} PassedSplits(
      stores: Stores, checks: seq<Check>, fallbackLimit: int, key: string, from: real, to: real)
    ensures PassedOn(checks, RunChecks(stores, checks, fallbackLimit), key, from, to)
            + LostOn(stores.backend, checks, key, from, to)
            == BackendAdmits(stores.backend, BackendServed(checks), key, from, to)
             + AdmittedBy(stores.fallback, FallbackCalls(checks, fallbackLimit), key, from, to)
    decreases |checks|
  {
    if checks != [] {
      var check, rest := checks[0], checks[1..];
      PassedFirst(stores, checks, fallbackLimit, key, from, to);
      PassedSplits(Next(stores, check), rest, fallbackLimit, key, from, to);
      if check.link.Down? {
        assert BackendServed(checks) == BackendServed(rest);
      } else {
        OneMoreServed(stores.backend, check.served, BackendServed(rest), key, from, to);
      }
      if check.link.Up? || check.failClosed {
        assert FallbackCalls(checks, fallbackLimit) == FallbackCalls(rest, fallbackLimit);
      } else {
        OneMore(stores.fallback, check.served.call.(limit := fallbackLimit), FallbackCalls(rest, fallbackLimit),
                key, from, to);
      }
    }
  }

  ghost predicate Ordered(checks: seq<Check>) {
    forall i, j | 0 <= i <= j < |checks| :: checks[i].served.call.now <= checks[j].served.call.now
  }

  ghost predicate OnePolicy(checks: seq<Check>, key: string, limit: int, window: int, failClosed: bool) {
    forall i | 0 <= i < |checks| && checks[i].served.call.key == key ::
      && checks[i].served.call.limit == limit && checks[i].served.call.window == window
      && checks[i].failClosed == failClosed
  }

  /** Calls in time order, the key's under one policy, none before `from`. */
  ghost predicate OrderedUnder(calls: seq<Call>, key: string, limit: int, window: int, from: real) {
    Monotone(calls) && FixedPolicy(calls, key, limit, window) && forall c | c in calls :: from <= c.now
  }

  lemma {:induction false} EarlierCall(
      c: Call, calls: seq<Call>, key: string, limit: int, window: int, from: real)
    requires OrderedUnder(calls, key, limit, window, from) && c.now <= from
    requires c.key == key ==> c.limit == limit && c.window == window
    ensures OrderedUnder([c] + calls, key, limit, window, c.now)
  {
  }

  lemma {:induction false} OrderedSince(
      calls: seq<Call>, key: string, limit: int, window: int, from: real, earlier: real)
    requires OrderedUnder(calls, key, limit, window, from) && earlier <= from
    ensures OrderedUnder(calls, key, limit, window, earlier)
  {
  }

  lemma {:induction false} BackendCallsOrdered(
      checks: seq<Check>, key: string, limit: int, window: int, failClosed: bool)
    requires Ordered(checks) && OnePolicy(checks, key, limit, window, failClosed)
    ensures var from := if checks == [] then 0.0 else checks[0].served.call.now;
            OrderedUnder(Calls(BackendServed(checks)), key, limit, window, from)
  {
    if checks != [] {
      var c, calls := checks[0].served.call, Calls(BackendServed(checks[1..]));
      var from := if |checks| == 1 then c.now else checks[1].served.call.now;
      BackendCallsOrdered(checks[1..], key, limit, window, failClosed);
      OrderedSince(calls, key, limit, window, from, c.now);
      if !checks[0].link.Down? {
        EarlierCall(c, calls, key, limit, window, c.now);
        assert Calls(BackendServed(checks)) == [c] + calls;
      }
    }
  }

  lemma {:induction false} FallbackCallsOrdered(
      checks: seq<Check>, key: string, limit: int, window: int, failClosed: bool, fallbackLimit: int)
    requires Ordered(checks) && OnePolicy(checks, key, limit, window, failClosed)
    ensures var calls := FallbackCalls(checks, fallbackLimit);
            && OrderedUnder(calls, key, fallbackLimit, window, if checks == [] then 0.0 else checks[0].served.call.now)
            && (failClosed ==> forall c | c in calls :: c.key != key)
  {
    if checks != [] {
      var c, calls := checks[0].served.call.(limit := fallbackLimit), FallbackCalls(checks[1..], fallbackLimit);
      var from := if |checks| == 1 then c.now else checks[1].served.call.now;
      FallbackCallsOrdered(checks[1..], key, limit, window, failClosed, fallbackLimit);
      OrderedSince(calls, key, fallbackLimit, window, from, c.now);
      EarlierCall(c, calls, key, fallbackLimit, window, c.now);
      assert FallbackCalls(checks, fallbackLimit) == [c] + calls || FallbackCalls(checks, fallbackLimit) == calls;
    }
  }

  lemma {:induction false} OtherKeysDoNotCount(calls: seq<Call>, ds: seq<Decision>, key: string, from: real, to: real)
    requires |calls| == |ds| && forall c | c in calls :: c.key != key
    ensures Admitted(calls, ds, key, from, to) == 0
  {
    if calls != [] { OtherKeysDoNotCount(calls[1..], ds[1..], key, from, to); }
  }

  /** A backend that has counted nothing yet. */
  predicate IsFresh(state: BackendState) {
    match state
    case MemoryState(entries) => entries == map[]
    case RedisState(values) => values == map[]
  }

  /** Redis drops only expired keys. */
  ghost predicate KeepsLiveKeys(state: BackendState, checks: seq<Check>) {
    state.RedisState? ==> PurgesExpired(state.values, BackendServed(checks))
  }

  lemma {:induction false} MemoryVerdicts(entries: map<string, Entry>, served: seq<Served>)
    ensures Verdicts(MemoryState(entries), served) == RateLimit.Run(entries, Calls(served))
    decreases |served|
  {
    if served != [] {
      MemoryVerdicts(Bumped(entries, served[0].call), served[1..]);
      assert Calls(served)[1..] == Calls(served[1..]);
    }
  }

  lemma {:induction false} RedisVerdicts(values: map<string, Value>, served: seq<Served>)
    ensures Verdicts(RedisState(values), served) == RedisBackend.Run(values, served)
    decreases |served|
  {
    if served != [] { RedisVerdicts(Scripted(values, served[0]), served[1..]); }
  }

  lemma {:induction false} SameAllowed(
      calls: seq<Call>, a: seq<Decision>, b: seq<Decision>, key: string, from: real, to: real)
    requires |a| == |b| == |calls| && forall i | 0 <= i < |calls| :: a[i].allowed == b[i].allowed
    ensures Admitted(calls, a, key, from, to) == Admitted(calls, b, key, from, to)
  {
    if calls != [] { SameAllowed(calls[1..], a[1..], b[1..], key, from, to); }
  }

  /** A fresh backend of either kind admits what a fresh in-memory one admits. */
  lemma {:induction false} FreshBackendsAgree(
      state: BackendState, served: seq<Served>, key: string, from: real, to: real)
    requires IsFresh(state) && Monotone(Calls(served))
    requires state.RedisState? ==> PurgesExpired(state.values, served)
    ensures BackendAdmits(state, served, key, from, to) == AdmittedBy(map[], Calls(served), key, from, to)
  {
    match state
    case MemoryState(entries) => MemoryVerdicts(map[], served);
    case RedisState(values) =>
      RedisVerdicts(map[], served);
      RefinesFrom(map[], map[], served);
      SameAllowed(Calls(served), RedisBackend.Run(map[], served), RateLimit.Run(map[], Calls(served)), key, from, to);
  }

  /**
   With either backend, however outages fall, and even when the backend has counted a request whose answer
   is lost: one window length lets at most 2 * limit - 1 checks of a fail-closed policy pass; a fail-open
   policy adds at most 2 * fallbackLimit - 1.
   */
  lemma {:induction false} ChecksAreBounded(
      state: BackendState, checks: seq<Check>, key: string, limit: nat, window: int, failClosed: bool,
      fallbackLimit: nat, from: real)
    requires limit >= 1 && fallbackLimit >= 1 && window >= 1 && IsFresh(state) && KeepsLiveKeys(state, checks)
    requires Ordered(checks) && OnePolicy(checks, key, limit, window, failClosed)
    ensures PassedOn(checks, RunChecks(Stores(state, map[]), checks, fallbackLimit), key, from, from + window as real)
            <= 2 * limit - 1 + if failClosed then 0 else 2 * fallbackLimit - 1
  {
    PassedSplits(Stores(state, map[]), checks, fallbackLimit, key, from, from + window as real);
    BackendShare(state, checks, key, limit, window, failClosed, from);
    FallbackShare(checks, key, limit, window, failClosed, fallbackLimit, from);
  }

  lemma {:induction false} BackendShare(
      state: BackendState, checks: seq<Check>, key: string, limit: nat, window: int, failClosed: bool, from: real)
    requires limit >= 1 && window >= 1 && IsFresh(state) && KeepsLiveKeys(state, checks)
    requires Ordered(checks) && OnePolicy(checks, key, limit, window, failClosed)
    ensures BackendAdmits(state, BackendServed(checks), key, from, from + window as real) <= 2 * limit - 1
  {
    BackendCallsOrdered(checks, key, limit, window, failClosed);
    ServedShare(state, BackendServed(checks), key, limit, window, from);
  }

  lemma {:induction false} ServedShare(
      state: BackendState, served: seq<Served>, key: string, limit: nat, window: int, from: real)
    requires limit >= 1 && window >= 1 && IsFresh(state) && Monotone(Calls(served))
    requires FixedPolicy(Calls(served), key, limit, window)
    requires state.RedisState? ==> PurgesExpired(state.values, served)
    ensures BackendAdmits(state, served, key, from, from + window as real) <= 2 * limit - 1
  {
    FreshBackendsAgree(state, served, key, from, from + window as real);
    SlidingBound(Calls(served), key, limit, window, from);
  }

  lemma {:induction false} FallbackShare(
      checks: seq<Check>, key: string, limit: nat, window: int, failClosed: bool, fallbackLimit: nat, from: real)
    requires fallbackLimit >= 1 && window >= 1
    requires Ordered(checks) && OnePolicy(checks, key, limit, window, failClosed)
    ensures AdmittedBy(map[], FallbackCalls(checks, fallbackLimit), key, from, from + window as real)
            <= if failClosed then 0 else 2 * fallbackLimit - 1
  {
    var others := FallbackCalls(checks, fallbackLimit);
    FallbackCallsOrdered(checks, key, limit, window, failClosed, fallbackLimit);
    if failClosed {
      OtherKeysDoNotCount(others, RateLimit.Run(map[], others), key, from, from + window as real);
    } else {
      SlidingBound(others, key, fallbackLimit, window, from);
    }
  }

  /** The limiter's own limits and windows always satisfy the premises: both are at least one. */
  lemma {:induction false} PremisesHold(policy: Policy, demo: bool, demoFactor: real)
    requires demo || policy.limit >= 1
    ensures LimitFor(policy, demo, demoFactor) >= 1 && WindowFor(policy) >= 1
  {
  }
}

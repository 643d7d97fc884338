/**
 Retry classification and backoff of apps/api/app/core/observability.py. Seconds are real numbers;
 2 ** n is unbounded, as in Python.
 */
module Backoff {
  function Upper(s: string): (u: string)
    ensures |u| == |s|
    ensures forall i | 0 <= i < |s| :: u[i] == UpperChar(s[i])
  {
    if s == "" then "" else [UpperChar(s[0])] + Upper(s[1..])
  }

  function UpperChar(c: char): char {
    if 'a' <= c <= 'z' then (c as int - 32) as char else c
  }

  predicate EndsWith(s: string, suffix: string) {
    |suffix| <= |s| && s[|s| - |suffix|..] == suffix
  }

  const TRANSIENT_ERRORS: set<string> := {
    "NETWORK_TIMEOUT", "STORAGE_TIMEOUT", "STORAGE_TEMPORARY_FAILURE", "REDIS_UNAVAILABLE", "DEPENDENCY_NOT_READY"}

  /** `RetryClass.classify(code) == "transient"`; an absent code is the empty text. */
  predicate IsTransient(code: string) {
    var normalized := Upper(code);
    normalized in TRANSIENT_ERRORS || EndsWith(normalized, "_TIMEOUT") || EndsWith(normalized, "_TEMPORARY_FAILURE")
  }

  function Pow2(n: nat): (p: nat)
    ensures p >= 1
  {
    if n == 0 then 1 else 2 * Pow2(n - 1)
  }

  function MinReal(a: real, b: real): real {
    if a <= b then a else b
  }

  predicate IsJitter(jitter: real) {
    0.0 <= jitter < 1.0
  }

  function BaseSeconds(attempt: int): int {
    var bounded := if attempt < 1 then 1 else attempt;
    var doubled := 15 * Pow2(bounded - 1);
    if 15 * 60 <= doubled then 15 * 60 else doubled
  }

  /** `calculate_retry_delay`, with the value of its jitter. */
  function RetryDelay(attempt: int, jitter: real): real {
    MinReal(900.0, Jittered(BaseSeconds(attempt) as real, jitter))
  }

  function Jittered(base: real, jitter: real): real {
    base + base * 0.2 * jitter
  }

  lemma {:induction false} Pow2Grows(m: nat, n: nat)
    requires m <= n
    ensures Pow2(m) <= Pow2(n)
  {
    if m < n { Pow2Grows(m, n - 1); }
  }

  lemma {:induction false} BaseDoubles(attempt: int)
    requires attempt >= 1
    ensures 15 <= BaseSeconds(attempt) <= 900
    ensures BaseSeconds(attempt + 1) == if 2 * BaseSeconds(attempt) >= 900 then 900 else 2 * BaseSeconds(attempt)
  {
  }

  /** Every delay lies between 15 and 900 seconds; from attempt 7 on it is exactly 900. */
  lemma {:induction false} DelayInRange(attempt: int, jitter: real)
    requires IsJitter(jitter)
    ensures 15.0 <= RetryDelay(attempt, jitter) <= 900.0
    ensures attempt >= 7 ==> RetryDelay(attempt, jitter) == 900.0
  {
    if attempt >= 1 { BaseDoubles(attempt); } else { assert BaseSeconds(attempt) == 15; }
    if attempt >= 7 {
      assert Pow2(6) == 64 by { assert Pow2(3) == 8; }
      Pow2Grows(6, attempt - 1);
    }
  }

  /** With these two jitters, the next attempt waits at least as long. */
  predicate WaitsGrow(attempt: int, jitter: real, nextJitter: real) {
    RetryDelay(attempt, jitter) <= RetryDelay(attempt + 1, nextJitter)
  }

  /**
   Later attempts never wait less, whatever the two jitters are. This starts at attempt 1: attempts
   up to 0 all use the base of attempt 1, and there the jitters decide.
   */
  lemma {:induction false} DelaysGrow(attempt: int)
    ensures attempt >= 1 <==>
            forall j: real, j': real | IsJitter(j) && IsJitter(j') :: WaitsGrow(attempt, j, j')
  {
    if attempt >= 1 {
      BaseDoubles(attempt);
      forall j: real, j': real | IsJitter(j) && IsJitter(j')
        ensures WaitsGrow(attempt, j, j')
      {
        DelayBounds(attempt, j);
        DelayBounds(attempt + 1, j');
      }
    } else {
      assert BaseSeconds(attempt) == 15 && BaseSeconds(attempt + 1) == 15;
      assert IsJitter(0.5) && IsJitter(0.0) && !WaitsGrow(attempt, 0.5, 0.0);
    }
  }

  lemma {:induction false} DelayBounds(attempt: int, jitter: real)
    requires IsJitter(jitter) && attempt >= 1
    ensures BaseSeconds(attempt) as real <= RetryDelay(attempt, jitter)
    ensures RetryDelay(attempt, jitter) <= MinReal(900.0, 1.2 * BaseSeconds(attempt) as real)
  {
    BaseDoubles(attempt);
    JitterWithinAFifth(BaseSeconds(attempt) as real, jitter);
  }

  lemma {:induction false} JitterWithinAFifth(base: real, jitter: real)
    requires IsJitter(jitter) && base >= 0.0
    ensures base <= Jittered(base, jitter) <= 1.2 * base
  {
    var fifth := base * 0.2;
    ProductNotNegative(fifth, jitter);
    ProductNotNegative(fifth, 1.0 - jitter);
    assert fifth * (1.0 - jitter) == fifth - fifth * jitter;
  }

  lemma ProductNotNegative(a: real, b: real)
    requires a >= 0.0 && b >= 0.0
    ensures a * b >= 0.0
  {
  }

  /**
   The delays themselves: 15 seconds up to attempt 1, doubling from there on to at most 900, and a jitter adds
   up to a fifth, again to at most 900.
   */
  lemma {:induction false} DelaysDouble(attempt: int, jitter: real)
    ensures attempt <= 1 ==> RetryDelay(attempt, 0.0) == 15.0
    ensures attempt >= 1 ==>
              RetryDelay(attempt + 1, 0.0)
              == if RetryDelay(attempt, 0.0) <= 450.0 then RetryDelay(attempt, 0.0) * 2.0 else 900.0
    ensures var plain := RetryDelay(attempt, 0.0); var more := plain + plain * 0.2 * jitter;
            RetryDelay(attempt, jitter) == if more <= 900.0 then more else 900.0
  {
    if attempt >= 1 { BaseDoubles(attempt); } else { assert BaseSeconds(attempt) == 15; }
    PlainDelay(attempt);
    PlainDelay(attempt + 1);
  }

  lemma {:induction false} PlainDelay(attempt: int)
    ensures RetryDelay(attempt, 0.0) == BaseSeconds(attempt) as real
  {
    assert BaseSeconds(attempt) as real * 0.2 * 0.0 == 0.0;
    if attempt >= 1 { BaseDoubles(attempt); } else { assert BaseSeconds(attempt) == 15; }
  }

  /** The same text with the lower-case letters raised. */
  predicate IsRaised(raised: string, code: string) {
    |raised| == |code| && forall i | 0 <= i < |code| ::
      raised[i] == if 'a' <= code[i] <= 'z' then (code[i] as int - 'a' as int + 'A' as int) as char else code[i]
  }

  /** The transient codes: the listed ones, and whatever ends in one of the two suffixes, in any letter case. */
  lemma {:induction false} TransientCodes(code: string, raised: string)
    requires IsRaised(raised, code)
    ensures IsTransient(code) <==>
            || raised == "NETWORK_TIMEOUT" || raised == "STORAGE_TIMEOUT" || raised == "STORAGE_TEMPORARY_FAILURE"
            || raised == "REDIS_UNAVAILABLE" || raised == "DEPENDENCY_NOT_READY"
            || (exists front :: raised == front + "_TIMEOUT")
            || (exists front :: raised == front + "_TEMPORARY_FAILURE")
  {
    assert Upper(code) == raised;
    ListedOrEnding(raised);
  }

  lemma {:induction false} ListedOrEnding(s: string)
    ensures s in TRANSIENT_ERRORS <==>
            || s == "NETWORK_TIMEOUT" || s == "STORAGE_TIMEOUT" || s == "STORAGE_TEMPORARY_FAILURE"
            || s == "REDIS_UNAVAILABLE" || s == "DEPENDENCY_NOT_READY"
    ensures EndsWith(s, "_TIMEOUT") <==> exists front :: s == front + "_TIMEOUT"
    ensures EndsWith(s, "_TEMPORARY_FAILURE") <==> exists front :: s == front + "_TEMPORARY_FAILURE"
  {
    EndsBehind(s, "_TIMEOUT");
    EndsBehind(s, "_TEMPORARY_FAILURE");
  }

  lemma {:induction false} EndsBehind(s: string, suffix: string)
    ensures EndsWith(s, suffix) <==> exists front :: s == front + suffix
  {
    if EndsWith(s, suffix) { assert s == s[..|s| - |suffix|] + suffix; }
  }

  lemma {:induction false} UpperTwice(s: string)
    ensures Upper(Upper(s)) == Upper(s)
  {
  }

  /** Classification does not depend on letter case. */
  lemma {:induction false} ClassificationIsCaseBlind(code: string)
    ensures IsTransient(Upper(code)) == IsTransient(code)
  {
    UpperTwice(code);
  }
}

/** The task operations service over the in-memory store. */
module Operations {
  import opened Wrappers
  import opened Backoff

  datatype Task = Task(
    id: string, taskType: string, workspaceId: string, status: string, phase: Option<string>,
    retryCount: nat, maxRetries: nat, nextRetryAt: Option<real>, completedAt: Option<real>, updatedAt: real,
    cancelable: bool, retryable: bool, errorCode: Option<string>, fencingToken: nat)

  datatype Action = Cancelled | ManualRetry

  datatype OperationEvent = OperationEvent(
    taskId: string, taskType: string, workspaceId: string, action: Action, key: string, createdAt: real,
    resultTaskId: Option<string>)

  datatype Error = NotAdmin | NotFound | CompensationRequired | NotCancelable | NotRetryable

  datatype Caller = Caller(workspaceId: string, role: string)

  /** The clock readings of one request, in order, and its jitter. */
  datatype Reading = Reading(first: real, second: real, third: real, jitter: real)

  datatype Store = Store(tasks: map<string, Task>, events: seq<OperationEvent>)

  function FindEvent(events: seq<OperationEvent>, id: string, action: Action, key: string): (e: Option<OperationEvent>)
    ensures e.Some? ==> e.value in events && e.value.taskId == id && e.value.action == action && e.value.key == key
    ensures e.None? ==> forall x | x in events :: !(x.taskId == id && x.action == action && x.key == key)
  {
    if events == [] then None
    else if events[0].taskId == id && events[0].action == action && events[0].key == key then Some(events[0])
    else FindEvent(events[1..], id, action, key)
  }

  /** The tasks by id; of two tasks with one id the later one stays. */
  function Indexed(tasks: seq<Task>): (m: map<string, Task>)
    ensures forall id | id in m :: m[id].id == id && m[id] in tasks
    ensures forall task | task in tasks :: task.id in m
  {
    if tasks == [] then map[]
    else
      var rest, last := tasks[..|tasks| - 1], tasks[|tasks| - 1];
      assert tasks == rest + [last];
      Indexed(rest)[last.id := last]
  }

  function Started(tasks: seq<Task>): Store {
    Store(Indexed(tasks), [])
  }

  function Get(store: Store, taskType: string, id: string): Option<Task> {
    if id in store.tasks && store.tasks[id].taskType == taskType then Some(store.tasks[id]) else None
  }

  function Save(store: Store, task: Task): Store {
    store.(tasks := store.tasks[task.id := task])
  }

  function Record(store: Store, task: Task, action: Action, key: string, at: real, result: Option<string>): Store {
    if FindEvent(store.events, task.id, action, key).Some? then store
    else
      var event := OperationEvent(task.id, task.taskType, task.workspaceId, action, key, at, result);
      store.(events := store.events + [event])
  }

  function Retried(task: Task, at: Reading): Task {
    task.(status := "retrying", retryCount := task.retryCount + 1,
          nextRetryAt := Some(at.first + RetryDelay(task.retryCount + 1, at.jitter)),
          updatedAt := at.second, fencingToken := task.fencingToken + 1)
  }

  function CancelledTask(task: Task, at: Reading): Task {
    task.(status := "cancelled", cancelable := false, retryable := false,
          completedAt := Some(at.first), updatedAt := at.second, fencingToken := task.fencingToken + 1)
  }

  predicate CanPublish(task: Task, token: int) {
    task.status != "cancelled" && task.status != "compensation_required" && task.fencingToken == token
  }

  const FINAL: set<string> := {"succeeded", "failed", "cancelled", "dead_letter"}

  predicate CanRetry(task: Task) {
    task.retryable && IsTransient(if task.errorCode.Some? then task.errorCode.value else "")
  }

  /** The task a caller may operate on. */
  function Authorized(store: Store, caller: Caller, taskType: string, id: string): Result<Task, Error> {
    if caller.role != "admin" then Err(NotAdmin)
    else
      var task := Get(store, taskType, id);
      if task.None? || task.value.workspaceId != caller.workspaceId then Err(NotFound) else Ok(task.value)
  }

  /** What `cancel` answers, and whether it acts. */
  function JudgeCancel(store: Store, task: Task, id: string, key: string): Result<bool, Error> {
    if task.status == "compensation_required" || task.phase == Some("compensation_required")
    then Err(CompensationRequired)
    else if task.status in FINAL then Ok(false)
    else if !task.cancelable then Err(NotCancelable)
    else Ok(FindEvent(store.events, id, Cancelled, key).None?)
  }

  datatype Request = Request(action: Action, caller: Caller, taskType: string, id: string, key: string, at: Reading)

  datatype Response = Response(store: Store, result: Result<Task, Error>)

  function ApplyCancel(store: Store, q: Request): Response {
    var found := Authorized(store, q.caller, q.taskType, q.id);
    if found.Err? then Response(store, found)
    else
      match JudgeCancel(store, found.value, q.id, q.key)
      case Err(error) => Response(store, Err(error))
      case Ok(acts) =>
        if !acts then Response(store, found)
        else
          var cancelled := CancelledTask(found.value, q.at);
          Response(Record(Save(store, cancelled), cancelled, Cancelled, q.key, q.at.third, None), Ok(cancelled))
  }

  function ApplyRetry(store: Store, q: Request): Response {
    var found := Authorized(store, q.caller, q.taskType, q.id);
    if found.Err? then Response(store, found)
    else
      var task := found.value;
      var existing := FindEvent(store.events, q.id, ManualRetry, q.key);
      if existing.Some? then
        var event := existing.value;
        var resultId := if event.resultTaskId.Some? then event.resultTaskId.value else event.taskId;
        var current := Get(store, q.taskType, resultId);
        Response(store, Ok(if current.Some? then current.value else task))
      else if !CanRetry(task) then Response(store, Err(NotRetryable))
      else
        var retried := Retried(task, q.at);
        var recorded := Record(Save(store, retried), task, ManualRetry, q.key, q.at.third, Some(retried.id));
        var current := Get(recorded, q.taskType, retried.id);
        Response(recorded, Ok(if current.Some? then current.value else retried))
  }

  function Apply(store: Store, q: Request): Response {
    if q.action.Cancelled? then ApplyCancel(store, q) else ApplyRetry(store, q)
  }

  // ---- The store and the service as objects ----

  class InMemoryOperationsStore {
    var tasks: map<string, Task>
    var events: seq<OperationEvent>

    constructor (initial: seq<Task>)
      ensures Contents() == Started(initial)
    {
      tasks, events := map[], [];
      new;
      var i := 0;
      while i < |initial|
        invariant 0 <= i <= |initial| && events == [] && tasks == Indexed(initial[..i])
      {
        assert initial[..i + 1][..i] == initial[..i];
        tasks := tasks[initial[i].id := initial[i]];
        i := i + 1;
      }
      assert initial[..i] == initial;
    }

    ghost function Contents(): Store
      reads this
    {
      Store(tasks, events)
    }

    method GetTask(taskType: string, id: string) returns (task: Option<Task>)
      ensures task == Get(Contents(), taskType, id)
    {
      if id !in tasks { return None; }
      return if tasks[id].taskType == taskType then Some(tasks[id]) else None;
    }

    method SaveTask(task: Task)
      modifies this
      ensures Contents() == Save(old(Contents()), task)
    {
      tasks := tasks[task.id := task];
    }

    /** `next(...)` over the events in order. */
    method FindFirst(id: string, action: Action, key: string) returns (found: Option<OperationEvent>)
      ensures found == FindEvent(events, id, action, key)
    {
      var i := 0;
      while i < |events|
        invariant 0 <= i <= |events|
        invariant FindEvent(events, id, action, key) == FindEvent(events[i..], id, action, key)
      {
        if events[i].taskId == id && events[i].action == action && events[i].key == key { return Some(events[i]); }
        assert events[i..][1..] == events[i + 1..];
        i := i + 1;
      }
      return None;
    }

    method RecordEvent(task: Task, action: Action, key: string, at: real, result: Option<string>)
      modifies this
      ensures Contents() == Record(old(Contents()), task, action, key, at, result)
    {
      var existing := FindFirst(task.id, action, key);
      if existing.Some? { return; }
      events := events + [OperationEvent(task.id, task.taskType, task.workspaceId, action, key, at, result)];
    }

    method RetryTask(task: Task, at: Reading) returns (retried: Task)
      modifies this
      ensures retried == Retried(task, at) && Contents() == Save(old(Contents()), retried)
    {
      retried := task.(
        status := "retrying", retryCount := task.retryCount + 1,
        nextRetryAt := Some(at.first + RetryDelay(task.retryCount + 1, at.jitter)),
        updatedAt := at.second, fencingToken := task.fencingToken + 1);
      SaveTask(retried);
    }
  }

  class OperationsService {
    const store: InMemoryOperationsStore

    constructor (store: InMemoryOperationsStore)
      ensures this.store == store
    {
      this.store := store;
    }

    method FindTask(caller: Caller, taskType: string, id: string) returns (r: Result<Task, Error>)
      ensures r == Authorized(store.Contents(), caller, taskType, id)
    {
      if caller.role != "admin" { return Err(NotAdmin); }
      var task := store.GetTask(taskType, id);
      if task.None? || task.value.workspaceId != caller.workspaceId { return Err(NotFound); }
      return Ok(task.value);
    }

    method Cancel(q: Request) returns (r: Result<Task, Error>)
      modifies store
      ensures Response(store.Contents(), r) == ApplyCancel(old(store.Contents()), q)
    {
      r := FindTask(q.caller, q.taskType, q.id);
      if r.Err? { return; }
      var task := r.value;
      if task.status == "compensation_required" || task.phase == Some("compensation_required") {
        return Err(CompensationRequired);
      }
      if task.status in FINAL { return Ok(task); }
      if !task.cancelable { return Err(NotCancelable); }
      var existing := store.FindFirst(q.id, Cancelled, q.key);
      if existing.Some? { return Ok(task); }
      var cancelled := task.(
        status := "cancelled", cancelable := false, retryable := false,
        completedAt := Some(q.at.first), updatedAt := q.at.second, fencingToken := task.fencingToken + 1);
      store.SaveTask(cancelled);
      store.RecordEvent(cancelled, Cancelled, q.key, q.at.third, None);
      return Ok(cancelled);
    }

    method Retry(q: Request) returns (r: Result<Task, Error>)
      modifies store
      ensures Response(store.Contents(), r) == ApplyRetry(old(store.Contents()), q)
    {
      r := FindTask(q.caller, q.taskType, q.id);
      if r.Err? { return; }
      var task := r.value;
      var existing := store.FindFirst(q.id, ManualRetry, q.key);
      if existing.Some? {
        var event := existing.value;
        var resultId := if event.resultTaskId.Some? then event.resultTaskId.value else event.taskId;
        var known := store.GetTask(q.taskType, resultId);
        return Ok(if known.Some? then known.value else task);
      }
      if !CanRetry(task) { return Err(NotRetryable); }
      var retried := store.RetryTask(task, q.at);
      store.RecordEvent(task, ManualRetry, q.key, q.at.third, Some(retried.id));
      var current := store.GetTask(q.taskType, retried.id);
      return Ok(if current.Some? then current.value else retried);
    }
  }
}

/**
 Properties of whole runs of cancel and retry requests against one in-memory store: conservation of
 the fencing token and the retry count, idempotency, fencing, and what stays cancelled.
 */
module OperationRuns {
  import opened Wrappers
  import opened Backoff
  import opened Operations

  /** The store after the requests, oldest first. */
  function Run(start: Store, requests: seq<Request>): Store {
    if requests == [] then start
    else Apply(Run(start, requests[..|requests| - 1]), requests[|requests| - 1]).store
  }

  lemma {:induction false} RunSplits(start: Store, before: seq<Request>, after: seq<Request>)
    ensures Run(start, before + after) == Run(Run(start, before), after)
  {
    if after == [] {
      assert before + after == before;
    } else {
      var whole, rest := before + after, after[..|after| - 1];
      assert whole[..|whole| - 1] == before + rest;
      RunSplits(start, before, rest);
    }
  }

  predicate Matches(event: OperationEvent, id: string, action: Action) {
    event.taskId == id && event.action == action
  }

  /** How many events of this action the task has. */
  function Count(events: seq<OperationEvent>, id: string, action: Action): nat {
    if events == [] then 0
    else
      Count(events[..|events| - 1], id, action) + if Matches(events[|events| - 1], id, action) then 1 else 0
  }

  lemma {:induction false} CountAppended(events: seq<OperationEvent>, event: OperationEvent, id: string, action: Action)
    ensures Count(events + [event], id, action)
            == Count(events, id, action) + if Matches(event, id, action) then 1 else 0
  {
  }

  lemma {:induction false} CountPositive(events: seq<OperationEvent>, id: string, action: Action)
    ensures Count(events, id, action) > 0 <==> exists e | e in events :: Matches(e, id, action)
  {
    if events == [] {
    } else {
      var rest := events[..|events| - 1];
      assert events == rest + [events[|events| - 1]];
      CountPositive(rest, id, action);
    }
  }

  predicate SameKey(a: OperationEvent, b: OperationEvent) {
    a.taskId == b.taskId && a.action == b.action && a.key == b.key
  }

  /** No two events share task, action and key. */
  predicate KeysUnique(events: seq<OperationEvent>) {
    forall i, j | 0 <= i < j < |events| :: !SameKey(events[i], events[j])
  }

  /** One task's accounts, against the task it started as. */
  predicate Conserved(was: Task, task: Task, events: seq<OperationEvent>) {
    var cancels, retries := Count(events, was.id, Cancelled), Count(events, was.id, ManualRetry);
    && task.id == was.id && task.taskType == was.taskType && task.workspaceId == was.workspaceId
    && task.phase == was.phase
    && task.fencingToken == was.fencingToken + cancels + retries
    && task.retryCount == was.retryCount + retries
    && cancels <= 1
    && (cancels == 1 ==> task.status == "cancelled" && !task.cancelable && !task.retryable)
    && (cancels == 1 ==> task.phase != Some("compensation_required"))
    && (cancels + retries == 0 ==> task == was)
  }

  /** Every recorded event is about a known task, of its workspace and type. */
  predicate EventFits(store: Store, event: OperationEvent) {
    && event.taskId in store.tasks
    && event.taskType == store.tasks[event.taskId].taskType
    && event.workspaceId == store.tasks[event.taskId].workspaceId
    && event.resultTaskId == if event.action.ManualRetry? then Some(event.taskId) else None
  }

  predicate Accounts(start: Store, store: Store) {
    && start.events == [] && store.tasks.Keys == start.tasks.Keys
    && (forall id | id in start.tasks :: start.tasks[id].id == id)
    && (forall id | id in start.tasks :: Conserved(start.tasks[id], store.tasks[id], store.events))
    && (forall e | e in store.events :: EventFits(store, e))
    && KeysUnique(store.events)
  }

  lemma {:induction false} StartedAccounts(initial: seq<Task>)
    ensures Accounts(Started(initial), Started(initial))
  {
  }

  /** Exactly what one request does: nothing, or one event and one changed task. */
  predicate Acts(store: Store, q: Request) {
    var found := Authorized(store, q.caller, q.taskType, q.id);
    && found.Ok?
    && FindEvent(store.events, q.id, q.action, q.key).None?
    && if q.action.Cancelled? then JudgeCancel(store, found.value, q.id, q.key) == Ok(true) else CanRetry(found.value)
  }

  function Acted(q: Request, task: Task): Task {
    if q.action.Cancelled? then CancelledTask(task, q.at) else Retried(task, q.at)
  }

  function EventOf(q: Request, task: Task): OperationEvent {
    OperationEvent(task.id, task.taskType, task.workspaceId, q.action, q.key, q.at.third,
                   if q.action.ManualRetry? then Some(task.id) else None)
  }

  /** The store a request leaves behind. */
  predicate Moves(store: Store, q: Request, next: Store) {
    if Acts(store, q) then
      && q.id in store.tasks
      && next == Store(store.tasks[q.id := Acted(q, store.tasks[q.id])],
                       store.events + [EventOf(q, store.tasks[q.id])])
    else next == store
  }

  lemma {:induction false} OneRequest(start: Store, store: Store, q: Request)
    requires Accounts(start, store)
    ensures Moves(store, q, Apply(store, q).store)
    ensures Acts(store, q) ==> Apply(store, q).result == Ok(Acted(q, store.tasks[q.id]))
  {
  }

  lemma {:induction false} AccountsStep(start: Store, store: Store, q: Request, next: Store)
    requires Accounts(start, store) && Moves(store, q, next)
    ensures Accounts(start, next) && store.events <= next.events
  {
    if Acts(store, q) {
      assert Conserved(start.tasks[q.id], store.tasks[q.id], store.events);
      NewEventFits(start, store, EventOf(q, store.tasks[q.id]), Acted(q, store.tasks[q.id]), next);
      forall id | id in start.tasks
        ensures Conserved(start.tasks[id], next.tasks[id], next.events)
      {
        assert Conserved(start.tasks[id], store.tasks[id], store.events);
        ConservedStep(start.tasks[id], store, q, next, id);
      }
      assert next.tasks.Keys == store.tasks.Keys;
    }
  }

  lemma {:induction false} ConservedStep(was: Task, store: Store, q: Request, next: Store, id: string)
    requires id in store.tasks && id in next.tasks && was.id == id && Moves(store, q, next) && Acts(store, q)
    requires Conserved(was, store.tasks[id], store.events)
    requires store.tasks[q.id].id == q.id
    ensures Conserved(was, next.tasks[id], next.events)
  {
    CountAppended(store.events, EventOf(q, store.tasks[q.id]), id, Cancelled);
    CountAppended(store.events, EventOf(q, store.tasks[q.id]), id, ManualRetry);
  }

  lemma {:induction false} NewEventFits(start: Store, store: Store, event: OperationEvent, task: Task, next: Store)
    requires Accounts(start, store)
    requires event.taskId in store.tasks && task.taskType == store.tasks[event.taskId].taskType
    requires task.workspaceId == store.tasks[event.taskId].workspaceId
    requires EventFits(store, event)
    requires FindEvent(store.events, event.taskId, event.action, event.key).None?
    requires next == Store(store.tasks[event.taskId := task], store.events + [event])
    ensures forall e | e in next.events :: EventFits(next, e)
    ensures KeysUnique(next.events)
  {
  }

  lemma {:induction false} RunAccounts(initial: seq<Task>, requests: seq<Request>)
    ensures Accounts(Started(initial), Run(Started(initial), requests))
  {
    if requests == [] {
      StartedAccounts(initial);
    } else {
      RunAccounts(initial, requests[..|requests| - 1]);
      var start, last := Started(initial), Run(Started(initial), requests[..|requests| - 1]);
      OneRequest(start, last, requests[|requests| - 1]);
      AccountsStep(start, last, requests[|requests| - 1], Run(start, requests));
    }
  }

  /**
   Over every run, a task's fencing token is its first one plus its events, its retry count is its
   first one plus its retry events, and no two events share task, action and key.
   */
  lemma {:induction false} Conservation(initial: seq<Task>, requests: seq<Request>, id: string)
    requires id in Indexed(initial)
    ensures var store, was := Run(Started(initial), requests), Indexed(initial)[id];
            var retries := Count(store.events, id, ManualRetry);
            && id in store.tasks
            && store.tasks[id].fencingToken == was.fencingToken + Count(store.events, id, Cancelled) + retries
            && store.tasks[id].retryCount == was.retryCount + retries
            && KeysUnique(store.events)
  {
    RunAccounts(initial, requests);
    assert Conserved(Indexed(initial)[id], Run(Started(initial), requests).tasks[id],
                     Run(Started(initial), requests).events);
  }

  /** Sending a recorded request again, by whomever and whenever, changes nothing. */
  lemma {:induction false} RepeatChangesNothing(initial: seq<Task>, requests: seq<Request>, q: Request)
    requires exists e | e in Run(Started(initial), requests).events :: Matches(e, q.id, q.action) && e.key == q.key
    ensures Apply(Run(Started(initial), requests), q).store == Run(Started(initial), requests)
  {
    RunAccounts(initial, requests);
    RepeatIsRefused(Run(Started(initial), requests), q);
    OneRequest(Started(initial), Run(Started(initial), requests), q);
  }

  lemma {:induction false} RepeatIsRefused(store: Store, q: Request)
    requires exists e | e in store.events :: Matches(e, q.id, q.action) && e.key == q.key
    ensures !Acts(store, q)
  {
  }

  /** An authorized repeat is answered with the task as it now is. */
  lemma {:induction false} RepeatAnswersCurrentTask(initial: seq<Task>, requests: seq<Request>, q: Request)
    requires exists e | e in Run(Started(initial), requests).events :: Matches(e, q.id, q.action) && e.key == q.key
    requires Authorized(Run(Started(initial), requests), q.caller, q.taskType, q.id).Ok?
    ensures Apply(Run(Started(initial), requests), q).result == Ok(Run(Started(initial), requests).tasks[q.id])
  {
    RunAccounts(initial, requests);
    RepeatAnswered(Started(initial), Run(Started(initial), requests), q);
  }

  lemma {:induction false} RepeatAnswered(start: Store, store: Store, q: Request)
    requires Accounts(start, store)
    requires exists e | e in store.events :: Matches(e, q.id, q.action) && e.key == q.key
    requires Authorized(store, q.caller, q.taskType, q.id).Ok?
    ensures Apply(store, q).result == Ok(store.tasks[q.id])
  {
    assert Conserved(start.tasks[q.id], store.tasks[q.id], store.events);
    CountPositive(store.events, q.id, q.action);
    var found := FindEvent(store.events, q.id, q.action, q.key);
    assert found.Some? && EventFits(store, found.value);
  }

  // ---- Fencing ----

  lemma {:induction false} EventsOnlyGrow(start: Store, store: Store, requests: seq<Request>)
    requires Accounts(start, store)
    ensures Accounts(start, Run(store, requests))
    ensures store.events <= Run(store, requests).events
  {
    if requests == [] {
    } else {
      EventsOnlyGrow(start, store, requests[..|requests| - 1]);
      var last := Run(store, requests[..|requests| - 1]);
      OneRequest(start, last, requests[|requests| - 1]);
      AccountsStep(start, last, requests[|requests| - 1], Run(store, requests));
    }
  }

  lemma {:induction false} CountGrows(
      events: seq<OperationEvent>, longer: seq<OperationEvent>, id: string, action: Action)
    requires events <= longer
    ensures Count(events, id, action) <= Count(longer, id, action)
    ensures (exists i | |events| <= i < |longer| :: Matches(longer[i], id, action)) <==>
            Count(events, id, action) < Count(longer, id, action)
  {
    if |events| == |longer| {
      assert events == longer;
    } else {
      var rest := longer[..|longer| - 1];
      CountGrows(events, rest, id, action);
      assert forall i | 0 <= i < |rest| :: rest[i] == longer[i];
      if Count(events, id, action) < Count(rest, id, action) {
        var i :| |events| <= i < |rest| && Matches(rest[i], id, action);
        assert Matches(longer[i], id, action);
      }
    }
  }

  /** Some event on this task was recorded after the first `from` ones. */
  predicate RecordedSince(events: seq<OperationEvent>, from: nat, id: string) {
    exists i | from <= i < |events| :: events[i].taskId == id
  }

  lemma {:induction false} TokenMoves(initial: seq<Task>, before: seq<Request>, after: seq<Request>, id: string)
    requires id in Indexed(initial)
    ensures var read, now := Run(Started(initial), before), Run(Started(initial), before + after);
            && id in read.tasks && id in now.tasks && read.events <= now.events
            && (RecordedSince(now.events, |read.events|, id) <==>
                now.tasks[id].fencingToken != read.tasks[id].fencingToken)
            && now.tasks[id].fencingToken >= read.tasks[id].fencingToken
  {
    var start := Started(initial);
    var read, now := Run(start, before), Run(start, before + after);
    RunAccounts(initial, before);
    RunSplits(start, before, after);
    EventsOnlyGrow(start, read, after);
    assert Conserved(start.tasks[id], read.tasks[id], read.events);
    assert Conserved(start.tasks[id], now.tasks[id], now.events);
    CountGrows(read.events, now.events, id, Cancelled);
    CountGrows(read.events, now.events, id, ManualRetry);
    if RecordedSince(now.events, |read.events|, id) {
      var i :| |read.events| <= i < |now.events| && now.events[i].taskId == id;
      assert Matches(now.events[i], id, now.events[i].action);
    }
  }

  /** A task without a new event is the task it was. */
  lemma {:induction false} QuietTaskStays(start: Store, store: Store, requests: seq<Request>, id: string)
    requires Accounts(start, store) && id in store.tasks
    requires !RecordedSince(Run(store, requests).events, |store.events|, id)
    ensures id in Run(store, requests).tasks && Run(store, requests).tasks[id] == store.tasks[id]
  {
    if requests == [] {
    } else {
      var rest, q := requests[..|requests| - 1], requests[|requests| - 1];
      EventsOnlyGrow(start, store, rest);
      OneRequest(start, Run(store, rest), q);
      QuietStep(start, store, Run(store, rest), q, Run(store, requests), id);
      QuietTaskStays(start, store, rest, id);
    }
  }

  lemma {:induction false} QuietStep(start: Store, store: Store, last: Store, q: Request, now: Store, id: string)
    requires Accounts(start, last) && store.events <= last.events && id in last.tasks && Moves(last, q, now)
    requires !RecordedSince(now.events, |store.events|, id)
    ensures id in now.tasks && now.tasks[id] == last.tasks[id]
    ensures !RecordedSince(last.events, |store.events|, id)
  {
    assert forall i | 0 <= i < |last.events| :: last.events[i] == now.events[i];
    if Acts(last, q) {
      assert Conserved(start.tasks[q.id], last.tasks[q.id], last.events);
      assert now.events[|last.events|].taskId == q.id;
    }
  }

  /**
   A token read at some moment still publishes later exactly when it did at that moment and no cancel
   or retry of its task was recorded since. In particular a recorded cancel or retry fences off every
   earlier reader for good.
   */
  lemma {:induction false} TokenPublishes(initial: seq<Task>, before: seq<Request>, after: seq<Request>, id: string)
    requires id in Indexed(initial)
    ensures var read, now := Run(Started(initial), before), Run(Started(initial), before + after);
            && id in read.tasks && id in now.tasks
            && (CanPublish(now.tasks[id], read.tasks[id].fencingToken) <==>
                CanPublish(read.tasks[id], read.tasks[id].fencingToken)
                && !RecordedSince(now.events, |read.events|, id))
  {
    TokenMoves(initial, before, after, id);
    var start := Started(initial);
    var read, now := Run(start, before), Run(start, before + after);
    RunSplits(start, before, after);
    RunAccounts(initial, before);
    if !RecordedSince(now.events, |read.events|, id) {
      QuietTaskStays(start, read, after, id);
    }
  }

  // ---- Staying cancelled ----

  /** Once a cancel is recorded for a task, the task never changes again. */
  lemma {:induction false} CancelIsFinal(initial: seq<Task>, before: seq<Request>, after: seq<Request>, id: string)
    requires exists e | e in Run(Started(initial), before).events :: Matches(e, id, Cancelled)
    ensures var then_, now := Run(Started(initial), before), Run(Started(initial), before + after);
            && id in then_.tasks && id in now.tasks && now.tasks[id] == then_.tasks[id]
            && now.tasks[id].status == "cancelled"
            && forall token: int :: !CanPublish(now.tasks[id], token)
  {
    var start := Started(initial);
    RunAccounts(initial, before);
    RunSplits(start, before, after);
    CancelledStays(start, Run(start, before), after, id);
  }

  lemma {:induction false} CancelledStays(start: Store, store: Store, requests: seq<Request>, id: string)
    requires Accounts(start, store)
    requires exists e | e in store.events :: Matches(e, id, Cancelled)
    ensures id in store.tasks && store.tasks[id].status == "cancelled"
    ensures id in Run(store, requests).tasks && Run(store, requests).tasks[id] == store.tasks[id]
  {
    CancelledStep(start, store, id);
    if requests == [] {
    } else {
      var rest, q := requests[..|requests| - 1], requests[|requests| - 1];
      CancelledStays(start, store, rest, id);
      EventsOnlyGrow(start, store, rest);
      var e :| e in store.events && Matches(e, id, Cancelled);
      assert e in Run(store, rest).events;
      CancelledStep(start, Run(store, rest), id);
      OneRequest(start, Run(store, rest), q);
      assert Moves(Run(store, rest), q, Run(store, requests));
    }
  }

  lemma {:induction false} CancelledStep(start: Store, store: Store, id: string)
    requires Accounts(start, store)
    requires exists e | e in store.events :: Matches(e, id, Cancelled)
    ensures id in store.tasks && store.tasks[id].status == "cancelled"
    ensures forall q: Request | q.id == id :: !Acts(store, q)
  {
    var e :| e in store.events && Matches(e, id, Cancelled);
    assert EventFits(store, e) && Conserved(start.tasks[id], store.tasks[id], store.events);
    CountPositive(store.events, id, Cancelled);
  }

  /**
   The search for an earlier cancel event never decides a cancel: a task that passes the checks in
   front of it has no cancel event at all, under any key.
   */
  lemma {:induction false} CancelSearchFindsNothing(initial: seq<Task>, requests: seq<Request>, q: Request)
    requires q.action.Cancelled?
    requires var store := Run(Started(initial), requests);
             var found := Authorized(store, q.caller, q.taskType, q.id);
             found.Ok? && JudgeCancel(store, found.value, q.id, q.key).Ok? && found.value.status !in FINAL
    ensures Acts(Run(Started(initial), requests), q)
  {
    RunAccounts(initial, requests);
    var start, store := Started(initial), Run(Started(initial), requests);
    assert Conserved(start.tasks[q.id], store.tasks[q.id], store.events);
    CountPositive(store.events, q.id, Cancelled);
    var found := FindEvent(store.events, q.id, Cancelled, q.key);
    assert found.Some? ==> Matches(found.value, q.id, Cancelled);
  }

  function FreshKey(events: seq<OperationEvent>): (key: string)
    ensures forall e | e in events :: |e.key| < |key|
  {
    if events == [] then "k"
    else
      var rest, last := events[..|events| - 1], events[|events| - 1];
      assert events == rest + [last];
      FreshKey(rest) + last.key + "k"
  }

  /** A retry under a fresh key acts on any task that can be retried. */
  lemma {:induction false} FreshRetryActs(start: Store, store: Store, id: string) returns (q: Request)
    requires Accounts(start, store) && id in store.tasks && CanRetry(store.tasks[id])
    ensures q.action == ManualRetry && q.id == id && Acts(store, q)
  {
    var task := store.tasks[id];
    q := Request(ManualRetry, Caller(task.workspaceId, "admin"), task.taskType, id, FreshKey(store.events),
                 Reading(0.0, 0.0, 0.0, 0.0));
  }

  /** The statuses in which `cancel` does nothing. */
  const SETTLED: set<string> := FINAL + {"compensation_required"}

  predicate HasStatus(store: Store, id: string, status: string) {
    id in store.tasks && store.tasks[id].status == status
  }

  /** After every run from this store the task has this status. */
  ghost predicate KeepsStatus(store: Store, id: string, status: string) {
    forall after: seq<Request> :: HasStatus(Run(store, after), id, status)
  }

  predicate IsSettled(store: Store, id: string) {
    id in store.tasks && store.tasks[id].status in SETTLED
  }

  lemma {:induction false} NeitherActs(store: Store, q: Request, id: string)
    requires IsSettled(store, id) && !CanRetry(store.tasks[id])
    ensures q.id == id ==> !Acts(store, q)
  {
  }

  /** A settled task that cannot be retried never changes again. */
  lemma {:induction false} UnretryableStays(start: Store, store: Store, after: seq<Request>, id: string)
    requires Accounts(start, store) && IsSettled(store, id) && !CanRetry(store.tasks[id])
    ensures id in Run(store, after).tasks && Run(store, after).tasks[id] == store.tasks[id]
  {
    if after != [] {
      var rest, q := after[..|after| - 1], after[|after| - 1];
      UnretryableStays(start, store, rest, id);
      EventsOnlyGrow(start, store, rest);
      OneRequest(start, Run(store, rest), q);
      NeitherActs(Run(store, rest), q, id);
      assert Moves(Run(store, rest), q, Run(store, after));
    }
  }

  lemma RetryingIsNotSettled()
    ensures "retrying" !in SETTLED
  {
  }

  lemma {:induction false} RetryableLeaves(start: Store, store: Store, id: string)
    requires Accounts(start, store) && id in store.tasks && CanRetry(store.tasks[id])
    requires store.tasks[id].status != "retrying"
    ensures !KeepsStatus(store, id, store.tasks[id].status)
  {
    var q := FreshRetryActs(start, store, id);
    OneRequest(start, store, q);
    OneMore(store, q);
    assert Moves(store, q, Run(store, [q]));
    assert !HasStatus(Run(store, [q]), id, store.tasks[id].status);
  }

  /**
   No settled status absorbs by itself, neither "cancelled" nor "compensation_required": a task in one keeps
   it under every later run, and then never changes at all, if and only if it is not retryable with a
   transient error.
   */
  lemma {:induction false} SettledStatusKept(initial: seq<Task>, requests: seq<Request>, id: string)
    requires IsSettled(Run(Started(initial), requests), id)
    ensures var store := Run(Started(initial), requests);
            && (!CanRetry(store.tasks[id]) <==> KeepsStatus(store, id, store.tasks[id].status))
            && (!CanRetry(store.tasks[id]) ==>
                  forall after: seq<Request> ::
                      id in Run(store, after).tasks && Run(store, after).tasks[id] == store.tasks[id])
  {
    var start, store := Started(initial), Run(Started(initial), requests);
    RunAccounts(initial, requests);
    if CanRetry(store.tasks[id]) {
      RetryingIsNotSettled();
      RetryableLeaves(start, store, id);
    } else {
      forall after: seq<Request>
        ensures id in Run(store, after).tasks && Run(store, after).tasks[id] == store.tasks[id]
      {
        UnretryableStays(start, store, after, id);
      }
    }
  }

  function Revivable(status: string): Task {
    Task("t", "restore", "w", status, None, 0, 3, None, None, 0.0, false, true, Some("_TIMEOUT"), 0)
  }

  const REVIVAL := Request(ManualRetry, Caller("w", "admin"), "restore", "t", "k", Reading(0.0, 0.0, 0.0, 0.0))

  /**
   A store that starts with a cancelled task, or with one that requires compensation, which no token can
   publish, and a manual retry that revives it: its new token publishes.
   */
  lemma {:induction false} SettledTaskRevives(status: string)
    requires status == "cancelled" || status == "compensation_required"
    ensures var task, store := Revivable(status), Started([Revivable(status)]);
            && HasStatus(store, "t", status) && store.tasks["t"] == task
            && (forall token: int :: !CanPublish(task, token))
            && var response := Apply(store, REVIVAL);
               && HasStatus(response.store, "t", "retrying")
               && response.result == Ok(response.store.tasks["t"])
               && CanPublish(response.store.tasks["t"], 1)
  {
    TimeoutIsTransient();
    var store := Started([Revivable(status)]);
    assert Revivable(status) in [Revivable(status)];
    StartedAccounts([Revivable(status)]);
    assert Acts(store, REVIVAL);
    OneRequest(store, store, REVIVAL);
  }

  lemma {:induction false} TimeoutIsTransient()
    ensures IsTransient("_TIMEOUT")
  {
  }

  /** An acted-on retry is scheduled between 15 seconds and 15 minutes ahead, and takes the next token. */
  lemma {:induction false} RetryIsScheduled(start: Store, store: Store, q: Request)
    requires Accounts(start, store) && Acts(store, q) && q.action.ManualRetry? && IsJitter(q.at.jitter)
    ensures var task := Apply(store, q).store.tasks[q.id];
            && task.status == "retrying" && task.fencingToken == store.tasks[q.id].fencingToken + 1
            && task.nextRetryAt.Some? && q.at.first + 15.0 <= task.nextRetryAt.value <= q.at.first + 900.0
  {
    OneRequest(start, store, q);
    DelayInRange(store.tasks[q.id].retryCount + 1, q.at.jitter);
  }

  /** Manual retries have no limit: a task that can be retried once can be retried any number of times. */
  lemma {:induction false} RetriesHaveNoLimit(initial: seq<Task>, id: string, n: nat) returns (requests: seq<Request>)
    requires id in Indexed(initial) && CanRetry(Indexed(initial)[id])
    ensures Retries(Started(initial), Run(Started(initial), requests), id, n)
  {
    if n == 0 {
      requests := [];
    } else {
      var fewer := RetriesHaveNoLimit(initial, id, n - 1);
      RunAccounts(initial, fewer);
      var q := RetryOnceMore(Started(initial), Run(Started(initial), fewer), id, n - 1);
      requests := fewer + [q];
      RunSplits(Started(initial), fewer, [q]);
      OneMore(Run(Started(initial), fewer), q);
    }
  }

  lemma {:induction false} OneMore(store: Store, q: Request)
    ensures Run(store, [q]) == Apply(store, q).store
  {
  }

  lemma {:induction false} RetryOnceMore(start: Store, store: Store, id: string, n: nat) returns (q: Request)
    requires Accounts(start, store) && Retries(start, store, id, n)
    ensures Retries(start, Apply(store, q).store, id, n + 1)
  {
    q := FreshRetryActs(start, store, id);
    OneRequest(start, store, q);
    assert Moves(store, q, Apply(store, q).store);
  }

  predicate Retries(start: Store, store: Store, id: string, n: nat) {
    && id in start.tasks && id in store.tasks && CanRetry(store.tasks[id])
    && store.tasks[id].retryCount == start.tasks[id].retryCount + n
    && store.tasks[id].maxRetries == start.tasks[id].maxRetries
  }
}

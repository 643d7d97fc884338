/**
 Who may cancel and retry, and what they are answered: every answer of the operations service, stated on the
 caller's role and workspace and on the fields of the record.
 */
module OperationAnswers {
  import opened Wrappers
  import opened Backoff
  import opened Operations
  import opened OperationRuns

  /** Only an admin gets anything but a refusal, and a refused request changes nothing. */
  lemma {:induction false} OnlyAdmins(store: Store, q: Request)
    requires q.caller.role != "admin"
    ensures Apply(store, q) == Response(store, Err(NotAdmin))
  {
  }

  /** The record exists, is of the requested type, and belongs to the caller's workspace. */
  predicate IsOwn(store: Store, q: Request) {
    && q.id in store.tasks && store.tasks[q.id].taskType == q.taskType
    && store.tasks[q.id].workspaceId == q.caller.workspaceId
  }

  /** A record of another workspace or type, like one that does not exist, is not found and stays as it is. */
  lemma {:induction false} OnlyOwnTasks(store: Store, q: Request)
    requires q.caller.role == "admin" && !IsOwn(store, q)
    ensures Apply(store, q) == Response(store, Err(NotFound))
  {
  }

  /** A request of this action was recorded for the record before, under this key. */
  ghost predicate IsRepeat(store: Store, q: Request, action: Action) {
    exists e | e in store.events :: e.taskId == q.id && e.action == action && e.key == q.key
  }

  /**
   What an admin's cancel of an own record is answered. It acts if and only if the record requires no
   compensation, is not in a final status, is cancelable, and no cancel of it is recorded under the same key.
   */
  lemma {:induction false} CancelAnswers(start: Store, store: Store, q: Request)
    requires Accounts(start, store) && q.action.Cancelled? && q.caller.role == "admin" && IsOwn(store, q)
    ensures var task, response := store.tasks[q.id], Apply(store, q);
            if task.status == "compensation_required" || task.phase == Some("compensation_required") then
              response == Response(store, Err(CompensationRequired))
            else if task.status == "succeeded" || task.status == "failed" || task.status == "cancelled"
                    || task.status == "dead_letter" then
              response == Response(store, Ok(task))
            else if !task.cancelable then response == Response(store, Err(NotCancelable))
            else if IsRepeat(store, q, Cancelled) then response == Response(store, Ok(task))
            else
              var cancelled := task.(
                status := "cancelled", cancelable := false, retryable := false, completedAt := Some(q.at.first),
                updatedAt := q.at.second, fencingToken := task.fencingToken + 1);
              var event := OperationEvent(q.id, q.taskType, q.caller.workspaceId, Cancelled, q.key, q.at.third, None);
              response == Response(Store(store.tasks[q.id := cancelled], store.events + [event]), Ok(cancelled))
  {
    assert Conserved(start.tasks[q.id], store.tasks[q.id], store.events);
  }

  /**
   What an admin's retry of an own record is answered. It acts if and only if no retry of it is recorded under
   the same key and the record is retryable with a transient error.
   */
  lemma {:induction false} RetryAnswers(start: Store, store: Store, q: Request)
    requires Accounts(start, store) && q.action.ManualRetry? && q.caller.role == "admin" && IsOwn(store, q)
    ensures var task, response := store.tasks[q.id], Apply(store, q);
            if IsRepeat(store, q, ManualRetry) then response == Response(store, Ok(task))
            else if !task.retryable || !IsTransient(if task.errorCode.Some? then task.errorCode.value else "") then
              response == Response(store, Err(NotRetryable))
            else
              var delay := RetryDelay(task.retryCount + 1, q.at.jitter);
              var retried := task.(
                status := "retrying", retryCount := task.retryCount + 1, nextRetryAt := Some(q.at.first + delay),
                updatedAt := q.at.second, fencingToken := task.fencingToken + 1);
              var event := OperationEvent(q.id, q.taskType, q.caller.workspaceId, ManualRetry, q.key, q.at.third,
                                          Some(q.id));
              response == Response(Store(store.tasks[q.id := retried], store.events + [event]), Ok(retried))
  {
    assert Conserved(start.tasks[q.id], store.tasks[q.id], store.events);
    if IsRepeat(store, q, ManualRetry) { RepeatAnswered(start, store, q); RepeatIsRefused(store, q); }
    OneRequest(start, store, q);
  }

  /** The request that recorded an event: by an admin of the workspace of the record, for its type. */
  predicate Recorded(q: Request, e: OperationEvent, task: Task) {
    && q.caller.role == "admin" && q.caller.workspaceId == task.workspaceId && q.taskType == task.taskType
    && q.action == e.action && q.id == e.taskId && q.key == e.key && q.at.third == e.createdAt
    && e.workspaceId == task.workspaceId && e.taskType == task.taskType
  }

  lemma {:induction false} NewEventRecorded(start: Store, store: Store, q: Request, e: OperationEvent)
    requires Accounts(start, store) && e in Apply(store, q).store.events && e !in store.events
    ensures q.id in start.tasks && Recorded(q, e, start.tasks[q.id])
  {
    OneRequest(start, store, q);
    assert Moves(store, q, Apply(store, q).store);
    assert Conserved(start.tasks[q.id], store.tasks[q.id], store.events);
  }

  /**
   Over every run, each recorded event comes from a request of the run by an admin of the workspace of its
   record, for the record's type, action, id and key.
   */
  lemma {:induction false} EventsAreByAdmins(initial: seq<Task>, requests: seq<Request>, e: OperationEvent)
    requires e in Run(Started(initial), requests).events
    ensures e.taskId in Indexed(initial) && exists q | q in requests :: Recorded(q, e, Indexed(initial)[e.taskId])
  {
    if requests != [] {
      var rest, last := requests[..|requests| - 1], requests[|requests| - 1];
      var store := Run(Started(initial), rest);
      assert requests == rest + [last];
      if e in store.events {
        EventsAreByAdmins(initial, rest, e);
      } else {
        RunAccounts(initial, rest);
        NewEventRecorded(Started(initial), store, last, e);
      }
    }
  }
}

# A Dafny model of capture, limits, operations, releases and upload tokens

The project models five parts of the repository and proves what they promise.

**Capture.** The browser extension's capture coordinator and its background message handler
(`apps/extension/src/background.ts`) share five maps and interleave at every `await`. `CaptureModel.dfy`
states them as a transition system: the code between two awaits is one step, every call in flight has a
program counter, and the answers of the browser are arbitrary. `CaptureBackground.dfy` states the same
code as objects with mutable fields, method by method, and shows that each method is one step.
The invariants (`CaptureGenerations`, `CaptureOwnership`, `CaptureFencing`, `CaptureSlices`) and the theorems
(`CaptureTheorems`, `CaptureCalls`, `CapturePages`, `CaptureSafeArms`, `CaptureHotspot`) therefore hold of
every interleaving of starts, cancels, END messages, slice and visible-tab requests, and late replies.

**Rate limits.** The in-memory and the Redis counter of `apps/api/app/core/rate_limit.py`, the subject
keys, and the limiter with its fallback during outages. The sharp bound for one window length is 2L - 1.

**Operations.** Cancel and manual retry of operational tasks over the in-memory store of
`apps/api/app/core/observability.py`, over whole runs of requests, and the backoff arithmetic.

**Portable releases.** The builder of `scripts/build-portable-release.py` with its self-describing
manifest, the manifest and checksum checks of `scripts/release-security.py`, the dependency closure of the
web image and the PNG framing check.

**Upload tokens.** Encoding and verification in `apps/api/app/core/storage.py`, including the lenient
base64 decoder of Python's standard library.

`dafny verify dfyconfig.toml` checks everything.

Findings about the code that the proofs brought out:

- The message parser accepts slice sequences below 30 (`apps/extension/src/runtime/messages.ts:274`), which
  is tighter than the 40 slices that spacing and lifetime allow.
- `cancel` and a newer start end recorded full-page sessions only. A call without a session that awaits
  `queryActiveTab` at that moment can still have its safe arm installed, as long as no newer arm message
  reaches the handler, throws, and leaves it behind, and a later visible-tab request can use it. A safe arm
  leaves its map when a visible-tab request of its tab learns the active tab, granted or refused, or when a
  full-page arm is installed on its tab.
- A full-page arm that names a hotspot page is refused unless the page detected at its URL is one, because that
  branch of the handler has no exception for hotspot pages. Page detection
  (`apps/extension/src/content/page-support.ts:46-60`) names none, so such a capture always fails.
- The manifest check does not look at the hash of an encrypted file; only the caller's loop
  (`scripts/release-security.py:422-423`) refuses such files.
- A manual retry checks neither the status nor `max_retries`: a record in the status `cancelled` or
  `compensation_required` that is retryable with a transient error is revived, and its new token publishes. A
  cancel made by the service clears `retryable`, so after it the status is final.
- The wait that the Redis backend tells a caller is rounded to the nearest second, so a caller that waits exactly
  that long can come up to half a second early and be refused again; the in-memory backend rounds up.
- Retries before attempt 1 share the delay of attempt 1, so there the jitter can shorten the next wait.
- The builder passes on whatever commit name Git reports; the verifier wants forty hexadecimal digits.
- The PNG check does not ask for the header chunk to be the first one.

## Model

| member | source | states |
|---|---|---|
| `CaptureTheorems.ArmedSessionsAccounted` | apps/extension/src/background.ts:63-184 | In every state of every interleaving an armed full-page session is the recorded one of its tab, or a superseded `startCapture` still in flight owns it; with no `startCapture` in flight on the tab it is the recorded one |
| `CaptureTheorems.OwnerDiscards` | apps/extension/src/background.ts:126-133 | The owner does discard it: no other event moves that call, and its own next step disarms the session and heads for the throw |
| `CaptureTheorems.SupersededCallsThrow` | apps/extension/src/background.ts:68-178 | A call in flight when a newer one begins on its tab, or when `cancel` runs, is in every later state still in flight or has thrown; it never returns normally |
| `CaptureTheorems.SupersededForever` | apps/extension/src/background.ts:62 | A superseded call stays superseded along every trace |
| `CaptureTheorems.RunProgress` | apps/extension/src/background.ts:69-156 | A call keeps its tab, generation and session, and every one of its steps (at most six) brings it closer to its end; other events leave it alone |
| `CaptureTheorems.CallsCanMove` | apps/extension/src/background.ts:69-170 | No call in flight is stuck: some answer of the browser moves it on |
| `CaptureTheorems.RecordedSessionsAreCurrent` | apps/extension/src/background.ts:73-77 | At every await a recorded session carries the current generation of its tab |
| `CaptureTheorems.CancelDisarmsFullPages` | apps/extension/src/background.ts:171-178 | Once the calls in flight at a `cancel` have ended and no new one began, no full-page session is armed on any tab; safe arms are the matter of the next four rows |
| `CaptureSafeArms.SafeArmOutlives` | apps/extension/src/background.ts:69-178 | When a `cancel` or an accepted start supersedes the calls of a tab, a safe arm older than the new generation can outlive all calls if and only if at that moment the tab has a safe arm, or a call without a session awaits `queryActiveTab` with the latest arm generation and some active tab matches the arm; otherwise no such arm is on the tab in any later state, whatever starts follow |
| `CaptureSafeArms.SafeArmOutlivesCancel` | apps/extension/src/background.ts:157-178 | A safe arm of a tab can outlive all calls after a `cancel` if and only if at the cancel the tab has one, or a call without a session awaits `queryActiveTab` with the latest arm generation and some active tab matches the arm; otherwise the tab has none in any state before the next start |
| `CaptureSafeArms.CancelledCallLeavesArm` | apps/extension/src/background.ts:423-453 | A concrete trace: a cancelled call installs its safe arm after the `cancel`, throws, and a later visible-tab request is granted a capture with it |
| `CaptureSafeArms.SafeArmLeaves` | apps/extension/src/background.ts:632-654 | A safe arm leaves its map exactly when a visible-tab request of its tab learns the active tab, granted or refused, or a full-page arm is installed on its tab (line 488); no `cancel` and no failing call removes it |
| `CaptureCalls.StartsAsAsked` | apps/extension/src/background.ts:69-78 | A start is accepted exactly for a supported tab or, where hotspots are allowed, an HTTPS page; it counts the generation up by one, has a session exactly in full-page mode, replaces the recorded session and ends the previous one |
| `CaptureCalls.StatusDecided` | apps/extension/src/background.ts:86-114 | A call awaits the active tab with an arm exactly if it is current, the page status is usable, and this is the arm it asks for (context, and for a session its id, URL, viewport and position, lines 105-116 and 158-164) and it parses; otherwise it fails, with which error |
| `CaptureCalls.ArmsComeFromStatus` | apps/extension/src/background.ts:105-116 | Over every trace, each arm that awaits the active tab is what its call asked for on learning the status of its page |
| `CaptureCalls.AnswersDecided` | apps/extension/src/background.ts:79-170 | At each other await a call goes on exactly if it is current and the answer positive, and fails with the error of the source otherwise |
| `CaptureCalls.FailedCallsLeaveNothing` | apps/extension/src/background.ts:79-155 | Over every trace, the session of a call that throws or has thrown is neither recorded nor armed |
| `CaptureCalls.CancelDoes` | apps/extension/src/background.ts:171-178 | A `cancel` counts every generation up by one, forgets every recorded session, disarms exactly the tabs whose armed session is the recorded one, and changes nothing else |
| `CaptureCalls.EndDoes` | apps/extension/src/background.ts:492-500 | An END message disarms and forgets exactly on the armed tab and id |
| `CaptureHotspot.CallArmed` | apps/extension/src/background.ts:86-170 | A call that learns its page status can still arm its tab and return if and only if it is current, the status is usable, its arm parses and some active tab lets it in: for a full-page call, the page detected at its own URL is the one the status names (and HTTPS or supported); for a call without a session, some page is. Otherwise nothing that happens later arms it or lets it return |
| `CaptureHotspot.HotspotCapturesFail` | apps/extension/src/background.ts:464-474 | If the page detected at the call's own URL is not a hotspot page, a full-page call whose page status names one never has an arm installed and never returns normally |
| `CaptureHotspot.HotspotCaptureRefused` | apps/extension/src/background.ts:398-410 | A concrete trace: a capture started with `allowHotspot` on an HTTPS page, whose page status names a hotspot page, is refused its arm on its own unchanged active tab (lines 464-474), discards its session and throws |
| `CapturePages.ArmDecided` | apps/extension/src/background.ts:429-490 | An arm is installed, with the lifetime of its kind and without the other kind, exactly if it is the latest of its tab and the active tab is the named one, at a page that may be captured and is detected as named (a safe arm takes a hotspot page at its word), for a full-page arm at its URL; otherwise nothing changes |
| `CapturePages.ArmsComeFromMessages` | apps/extension/src/background.ts:475-487 | Over every trace, each recorded full-page arm is what some arm message said that the active tab let in |
| `CapturePages.SafeArmsComeFromMessages` | apps/extension/src/background.ts:444-450 | Over every trace, each safe arm on a tab is what some arm message said, under the URL of the active tab that let it in |
| `CapturePages.SliceDecided` | apps/extension/src/background.ts:506-532 | Which slices are captured, stated on the arm message and the slices so far: exactly the slice of the armed session with the next number, the same context, URL and viewport, sent from the active tab at that URL, not scrolled back, in time, with no capture running and 500 ms after the last one; and exactly which refusals end the arm |
| `CapturePages.UnarmedSliceRefused` | apps/extension/src/background.ts:505-513 | Without an armed session on the sender's tab no slice is captured |
| `CapturePages.ImageDecided` | apps/extension/src/background.ts:534-556 | A capture is answered with its image exactly if its arm still stands, the image was taken and time is not up; it is recorded as it was asked for, and a failed or late one ends the arm |
| `CapturePages.CapturesShowArmedPage` | apps/extension/src/background.ts:517-528 | In every state, a capture that awaits its image has the context, URL and viewport of its arm, and its sender is the armed tab at that URL |
| `CapturePages.ImagesShowArmedPage` | apps/extension/src/background.ts:464-556 | Over every trace, an image of a slice shows the page of an arm message that the active tab let in less than 20 s before |
| `CapturePages.ShotDecided` | apps/extension/src/background.ts:632-656 | A visible-tab capture begins exactly if the safe arm of the tab is unexpired and names the page signature, URL and page of the request on its active tab; either way the arm is gone |
| `CapturePages.GrantedShots` | apps/extension/src/background.ts:638-656 | Over every trace, a granted visible-tab capture names the signature of the message that armed the tab, comes from the URL at which that arm was let in, and less than 30 s after it |
| `CaptureTheorems.ArmsAreFenced` | apps/extension/src/background.ts:423-490 | The generations that install an arm on a tab strictly increase, no tab is in both arm maps, and each installed safe arm is spent on at most one visible-tab capture |
| `CaptureTheorems.SlicesAreOrderedAndBounded` | apps/extension/src/background.ts:502-556 | The images returned for one armed session are numbered 0, 1, 2, ... without gap or repeat, with nondecreasing `scrollY` from the armed value, each checked before the deadline; at most 40 by timing and at most 30 by the message parser |
| `CaptureTheorems.SpacingBounds` | apps/extension/src/background.ts:256-258 | Slice k of a session is checked at least k times 500 ms after the arm was installed, for every list of good slices |
| `CaptureTheorems.OneCaptureInFlight` | apps/extension/src/background.ts:531-545 | Two slice requests that both await `captureVisibleTab` for one session are the same request |
| `CaptureTheorems.ArmNeverReturns` | apps/extension/src/background.ts:475-487 | An armed object that has left the map never comes back |
| `CaptureTheorems.LostArmsGetNoImage` | apps/extension/src/background.ts:537-552 | A capture whose armed object was replaced, ended or dropped while it was in flight returns no image, however late it finishes |
| `CaptureTheorems.Invariant` | apps/extension/src/background.ts:51-184 | Every state of every trace satisfies the four invariants below |
| `CaptureGenerations.GenerationsStep` | apps/extension/src/background.ts:53-62 | Every step keeps: generations and session ids of calls are unique per tab, recorded sessions are current, arm generations never pass tab generations |
| `CaptureOwnership.OwnershipStep` | apps/extension/src/background.ts:63-155 | Every step keeps: each armed session is recorded or owned by a superseded call, and a current call that has not armed yet is recorded |
| `CaptureFencing.FencingStep` | apps/extension/src/background.ts:423-490 | Every step keeps: installs increase per tab, arm maps are disjoint, spent arms were installed and are spent once |
| `CaptureSlices.SlicesStep` | apps/extension/src/background.ts:475-556 | Every step keeps: each armed entry agrees with the slices returned for it, and captures in flight exclude each other |
| `CaptureFrames.ResumeFrame` | apps/extension/src/background.ts:78-155 | A step that resumes one call touches no other call, no generation and no history, and adds no session and no arm |
| `CaptureFrames.StartFrame` | apps/extension/src/background.ts:69-78 | A start adds one call with a larger generation and only removes arms |
| `CaptureBackground.Background.constructor` | apps/extension/src/background.ts:305-308 | A fresh background page stands for the initial state |
| `CaptureBackground.Background.NextGeneration` | apps/extension/src/background.ts:57-61 | The next generation of a tab, counted from 1 |
| `CaptureBackground.Background.FinishCapture` | apps/extension/src/background.ts:179-183 | Forgets the recorded session only if the id matches |
| `CaptureBackground.Background.EndFullPageCapture` | apps/extension/src/background.ts:492-500 | Disarms and forgets on a matching id, and changes nothing otherwise |
| `CaptureBackground.Background.DiscardFullPageCapture` | apps/extension/src/background.ts:63-66 | Forgets the session if it is still recorded and ends its arm |
| `CaptureBackground.Background.FailStart` | apps/extension/src/background.ts:79-82 | The discard-and-throw path of a call with or without a session |
| `CaptureBackground.Background.RethrowStart` | apps/extension/src/background.ts:87-92 | The catch path: discards only a session that is still recorded |
| `CaptureBackground.Background.EnterTabs` | apps/extension/src/background.ts:73-78 | The maps at the first await of a start, with the previous session of the tab discarded |
| `CaptureBackground.Background.StartCapture` | apps/extension/src/background.ts:69-78 | The code of a start up to its first await is one step of the transition system, including the refusal of unsupported tabs |
| `CaptureBackground.Background.PreviousDiscarded` | apps/extension/src/background.ts:79-86 | From the discard of the previous session to the page status request |
| `CaptureBackground.Background.PageStatusReplied` | apps/extension/src/background.ts:86-119 | From the page status to the arm request, with every failure path |
| `CaptureBackground.Background.ReceiveArmMessage` | apps/extension/src/background.ts:423-428 | Both arm branches up to `queryActiveTab`: older generations are refused, the latest one is remembered |
| `CaptureBackground.Background.InstallNewArm` | apps/extension/src/background.ts:444-452 | An accepted arm enters its map as a new object and removes the other kind (also lines 475-489) |
| `CaptureBackground.Background.ArmActiveTabReplied` | apps/extension/src/background.ts:429-489 | Both arm branches after `queryActiveTab` |
| `CaptureBackground.Background.ArmReplied` | apps/extension/src/background.ts:120-133 | From the arm reply to the content request (also lines 165-167) |
| `CaptureBackground.Background.ContentReplied` | apps/extension/src/background.ts:141-155 | From the content reply to the end of the call (also lines 168-169) |
| `CaptureBackground.Background.Cancel` | apps/extension/src/background.ts:171-178 | `cancel` advances every generation, forgets every recorded session and disarms exactly the sessions recorded |
| `CaptureBackground.Background.CheckSlice` | apps/extension/src/background.ts:506-532 | The checks of a slice in their order give the verdict of the transition system, which `CapturePages.SliceDecided` states on the arm message |
| `CaptureBackground.Background.SliceActiveTabReplied` | apps/extension/src/background.ts:505-536 | A slice request from `queryActiveTab` to `captureVisibleTab`, updating the armed object in place |
| `CaptureBackground.Background.SliceImageReplied` | apps/extension/src/background.ts:537-556 | A slice request after `captureVisibleTab`; comparing objects by reference decides as comparing arm generations does |
| `CaptureBackground.Background.VisibleActiveTabReplied` | apps/extension/src/background.ts:632-656 | A visible-tab request removes its safe arm before the one capture it allows |
| `CaptureBackground.Background.Handle` | apps/extension/src/background.ts:310-661 | Any sequence of messages, resumptions and cancels on the object is a trace of the transition system, so all theorems above hold of it |
| `RateLimit.InMemoryAtomicBackend.Increment` | apps/api/app/core/rate_limit.py:84-105 | The new entry of the key and the decision, as functions of the old entry; other keys unchanged |
| `RateLimit.SlidingBound` | apps/api/app/core/rate_limit.py:84-105 | Over every ordered trace, any half-open interval of one window length admits at most 2L - 1 calls of a key with limit L >= 1 |
| `RateLimit.SlidingBoundIsTight` | apps/api/app/core/rate_limit.py:97-102 | For every limit and window an ordered trace attains that bound |
| `RateLimit.NoLimitNoCalls` | apps/api/app/core/rate_limit.py:101-102 | A limit of zero or less admits nothing |
| `RateLimitWindows.DecisionsFollowWindows` | apps/api/app/core/rate_limit.py:93-105 | The decisions on a key are those of a reference that cuts its call times into windows opened by their first call and admits the first L of each |
| `RateLimitWindows.EachWindowAdmitsMinimum` | apps/api/app/core/rate_limit.py:93-105 | Window by window, the decisions on a key allow the first min(calls, L) calls of that window and no other |
| `RateLimitWindows.WindowsAreSpans` | apps/api/app/core/rate_limit.py:93-98 | A window holds the calls within one window length of its first, and the next one opens only after that |
| `RateLimitWindows.KeysAreIsolated` | apps/api/app/core/rate_limit.py:93-100 | The decisions on one key are those of the trace projected to that key |
| `RateLimitWindows.RetryAfterInWindow` | apps/api/app/core/rate_limit.py:103 | `retry_after` lies between 1 and the window |
| `RateLimitWindows.WaitingHelps` | apps/api/app/core/rate_limit.py:97-105 | A caller that waits `retry_after` and is the first on its key in the new window is allowed with count 1, whatever happened before and on other keys |
| `RedisBackend.RedisAtomicBackend.Increment` | apps/api/app/core/rate_limit.py:109-134 | INCR, EXPIRE on the first count and the decision, as one step on the server |
| `RedisBackend.RedisRefinesMemory` | apps/api/app/core/rate_limit.py:84-134 | On every ordered trace, and however Redis times the removal of expired keys, both backends return the same count and the same `allowed`, and Redis the same `retry_after` or one second less |
| `RedisWaiting.RedisRetryAfterInWindow` | apps/api/app/core/rate_limit.py:132 | `retry_after` of the Redis backend lies between 1 and the window, too |
| `RedisWaiting.RedisWaitingHelps` | apps/api/app/core/rate_limit.py:109-134 | A caller on Redis that waits exactly `retry_after`, and is the first on its key after the window's end, opens a new window if and only if the time left was at most a second, whole, or has a fraction of at least one half; otherwise a refused caller is refused again |
| `RedisWaiting.RedisWaitingLonger` | apps/api/app/core/rate_limit.py:109-134 | Half a second more than `retry_after` always opens a new window, with count 1 and allowed |
| `RedisWaiting.WaitingCanFail` | apps/api/app/core/rate_limit.py:109-134 | A concrete caller that is refused, waits the one second it is told, and is refused again |
| `LimiterPolicies.NthCheckPasses` | apps/api/app/core/rate_limit.py:152-186 | With a fresh answering backend, and whatever other subjects do, the n-th check of a subject in a window of the policy's whole seconds (at least one) passes if and only if n is at most its allowance: the policy's limit or, in demo mode, the greatest whole number not above limit times factor, at least one |
| `LimiterPolicies.SubjectsAreBounded` | apps/api/app/core/rate_limit.py:152-186 | Over every trace of checks, however outages fall, one window length passes at most 2A - 1 checks of a subject with allowance A under a fail-closed policy, and at most 2F - 1 more under a fail-open one with fallback limit F |
| `LimiterPolicies.OneAnswer` | apps/api/app/core/rate_limit.py:167-186 | A check is unavailable exactly if the backend's answer does not arrive and the policy is fail-closed; a refusal names a wait of a second or more; without the backend the check is counted in the fallback under its key, and the fallback limit decides |
| `SubjectKeys.KeysAreDistinct` | apps/api/app/core/rate_limit.py:199-207 | Two keys are equal if and only if category, mode and subject are, when the digest separates the two subjects |
| `Limiter.RateLimiter.CheckRate` | apps/api/app/core/rate_limit.py:152-185 | One check over either backend: limit and window from the policy, backend or fallback or refusal, and the exception raised, also when the backend raises after it has counted |
| `Limiter.PassedSplits` | apps/api/app/core/rate_limit.py:167-185 | Over traces with outages, what passes plus what the backend admitted without its answer arriving is what the backend admits plus what the fallback admits |
| `Limiter.ChecksAreBounded` | apps/api/app/core/rate_limit.py:152-185 | With a fresh Redis or in-memory backend, and however outages fall, before or after the script has counted, one window length passes at most 2L - 1 checks of a fail-closed policy, and at most 2F - 1 more for a fail-open one with fallback limit F |
| `Limiter.PremisesHold` | apps/api/app/core/rate_limit.py:160-165 | The limiter's own limits and windows satisfy the premises of the bounds |
| `Operations.InMemoryOperationsStore.constructor` | apps/api/app/core/observability.py:234-236 | A store indexed by task id, with no events |
| `Operations.InMemoryOperationsStore.FindFirst` | apps/api/app/core/observability.py:293-308 | The first event of a task, action and key, or none |
| `Operations.InMemoryOperationsStore.RecordEvent` | apps/api/app/core/observability.py:253-273 | Appends one event unless one with the same key exists |
| `Operations.InMemoryOperationsStore.RetryTask` | apps/api/app/core/observability.py:275-291 | The retried copy replaces its record; events unchanged |
| `Operations.OperationsService.Cancel` | apps/api/app/core/observability.py:956-993 | The whole new store and the answer, for every refusal and the acting case |
| `Operations.OperationsService.Retry` | apps/api/app/core/observability.py:995-1025 | The whole new store and the answer, for repeats, refusals and the acting case |
| `OperationAnswers.OnlyAdmins` | apps/api/app/core/observability.py:908-911 | A caller who is not an admin is refused and changes nothing |
| `OperationAnswers.OnlyOwnTasks` | apps/api/app/core/observability.py:913-925 | For an admin, a record of another workspace or type, like an unknown one, is not found and stays as it is |
| `OperationAnswers.CancelAnswers` | apps/api/app/core/observability.py:956-993 | What an admin's cancel of an own record is answered and does, case by case on the fields of the record |
| `OperationAnswers.RetryAnswers` | apps/api/app/core/observability.py:995-1025 | What an admin's retry of an own record is answered and does, case by case on the fields of the record |
| `OperationAnswers.EventsAreByAdmins` | apps/api/app/core/observability.py:908-925 | Over every run, each recorded event comes from a request by an admin of the workspace of its record, for the record's type |
| `OperationRuns.OneRequest` | apps/api/app/core/observability.py:956-1025 | A request either changes nothing, or replaces one record and appends one event, exactly when its conditions hold |
| `OperationRuns.Conservation` | apps/api/app/core/observability.py:275-291 | Over every run the fencing token is its first value plus the `cancelled` and `manual_retry` events, the retry count its first value plus the `manual_retry` events, and no two events share task, action and key |
| `OperationRuns.RepeatChangesNothing` | apps/api/app/core/observability.py:975-976 | A request whose key is already recorded for its task and action changes nothing, whoever sends it (also lines 1005-1008) |
| `OperationRuns.RepeatAnswersCurrentTask` | apps/api/app/core/observability.py:1005-1008 | An authorized repeat is answered with the record as it is now |
| `OperationRuns.TokenPublishes` | apps/api/app/core/observability.py:310-314 | A fencing token read earlier can publish if and only if it could when it was read and no cancel or retry of its record happened since; so a recorded cancel or retry shuts out every earlier token for good |
| `OperationRuns.TokenMoves` | apps/api/app/core/observability.py:284-289 | The token changes exactly when an event is recorded, and never goes back |
| `OperationRuns.CancelIsFinal` | apps/api/app/core/observability.py:971-988 | After a recorded cancel the record never changes again, under any requests, and no token can publish |
| `OperationRuns.SettledStatusKept` | apps/api/app/core/observability.py:966-976 | A record in a final status, `cancelled` among them, or in `compensation_required` keeps that status under every later run, and then never changes, if and only if it is not retryable with a transient error (lines 1009-1014) |
| `OperationRuns.SettledTaskRevives` | apps/api/app/core/observability.py:1009-1014 | A concrete store that starts with a `cancelled` or a `compensation_required` record, which no token can publish, and the manual retry that revives it with a token that publishes |
| `OperationRuns.CancelSearchFindsNothing` | apps/api/app/core/observability.py:975-976 | The search for an earlier cancel event never decides: whatever passes the checks before it has no cancel event |
| `OperationRuns.RetriesHaveNoLimit` | apps/api/app/core/observability.py:1009-1014 | Manual retries ignore `max_retries`: what can be retried once can be retried any number of times |
| `OperationRuns.RetryIsScheduled` | apps/api/app/core/observability.py:275-291 | A retry takes the next token and is scheduled between 15 s and 900 s ahead |
| `Backoff.DelayInRange` | apps/api/app/core/observability.py:891-898 | The delay lies in [15 s, 900 s] and is exactly 900 s from attempt 7 on |
| `Backoff.DelaysDouble` | apps/api/app/core/observability.py:896-898 | Without jitter the delay is 15 s up to attempt 1 and doubles from there on to at most 900 s; the jitter adds up to a fifth of it, to at most 900 s |
| `Backoff.DelaysGrow` | apps/api/app/core/observability.py:896-898 | The next attempt waits at least as long under any two jitters if and only if the attempt is at least 1 |
| `Backoff.TransientCodes` | apps/api/app/core/observability.py:881-888 | In any letter case, exactly the five listed codes (lines 60-68) and those ending in `_TIMEOUT` or `_TEMPORARY_FAILURE` are transient |
| `Backoff.ClassificationIsCaseBlind` | apps/api/app/core/observability.py:881-888 | Classification does not depend on letter case |
| `Manifest.ManifestPayload` | scripts/build-portable-release.py:175-204 | The ten-round search returns the manifest of the first settled size, or fails only if none of the ten sizes settles |
| `Manifest.ManifestConverges` | scripts/build-portable-release.py:188-204 | It never fails: four rounds suffice; the payload is as long as its own entry says, and no smaller size is self-consistent |
| `Manifest.ThreeRoundsAreTooFew` | scripts/build-portable-release.py:188-203 | Three rounds would not suffice for a manifest whose text with size 0 has 998 bytes |
| `ManifestSamples.ThreeRoundsMissAManifest` | scripts/build-portable-release.py:144-165 | A release with a valid version has such a manifest |
| `Manifest.TwoSizesCanFit` | scripts/build-portable-release.py:188-203 | Self-consistency alone does not determine the size of a manifest whose text with size 0 has 997 bytes |
| `ManifestSamples.AManifestWithTwoSizes` | scripts/build-portable-release.py:144-165 | A release with a valid version has such a manifest |
| `Manifest.StatingSize` | scripts/build-portable-release.py:144-165 | The manifest grows with its stated size only by that number's digits |
| `ManifestText.ManifestIsPrintedDocument` | scripts/build-portable-release.py:144-165 | The manifest is the document of the release printed as JSON with sorted keys and without spaces, and a newline |
| `ManifestText.DocumentSays` | scripts/build-portable-release.py:144-155 | The document states schema, version, commit and epoch, and has every entry with its path, size, mode and hash |
| `Manifest.ManifestIsCanonical` | scripts/build-portable-release.py:149-155 | The manifest does not depend on the order in which the files were collected |
| `Manifest.SortingSorts` | scripts/build-portable-release.py:151-154 | Sorting by path yields an ordered permutation |
| `Manifest.PrecedesIsLexicographic` | scripts/build-portable-release.py:151-154 | The order of the paths: a beginning comes first, and otherwise the first difference decides |
| `PortableBuilder.BuildPortableRelease` | scripts/build-portable-release.py:253-327 | On success one payload for each tracked file, in order, with its archive path, content and mode, case-folded paths all different, plus the manifest, and the checksum text; it succeeds exactly for a valid version and epoch, a clean tree, and tracked files that are no links, pass the source check and do not collide; otherwise the error of the first check that fails |
| `PortableAgreement.BuiltFilesAreTracked` | scripts/build-portable-release.py:277-291 | Every tracked file is archived with its content, readable by all, writable by its owner, and executable exactly for index mode 0o100755; exactly the five files of `portable/` move to the root (lines 29-35), the others keep their names |
| `PortableAgreement.NothingElseIsBuilt` | scripts/build-portable-release.py:307-313 | Besides the tracked files the archive holds only the manifest, as a plain file |
| `PortablePromises.BuiltBeside` | scripts/build-portable-release.py:314-322 | Beside the archive lie the manifest that is in it and the checksum text with the digest and the archive's name |
| `PortableVerifier.ManifestProblems` | scripts/release-security.py:306-392 | Exactly the problems that hold are reported, for every archive, external file and parser |
| `PortableVerifier.Declare` | scripts/release-security.py:352-364 | The first valid entry of each path is declared; invalid entries and repeats are reported |
| `PortableVerifier.CheckFile` | scripts/release-security.py:371-391 | Exactly the differences in size, mode and hash between an entry and its file |
| `PortableVerifier.CompareNames` | scripts/release-security.py:366-369 | Exactly the names on one side only |
| `PortableAgreement.PassesWhenFaithful` | scripts/release-security.py:306-392 | No problem is reported if and only if the same manifest lies inside and beside the archive, has one entry for every archived file and no other, and states size and mode of each and the hash of each that is not encrypted |
| `PortablePromises.GoodArchivesPass` | scripts/release-security.py:306-392 | The same on the archive and the document's fields alone: three numerals as version, forty hexadecimal digits as commit, mode bits 0o777 of the external attributes, and Python's equality of numbers |
| `PortablePromises.UnreadableManifests` | scripts/release-security.py:312-321 | A missing, encrypted, unreadable or unparsable manifest is the only problem reported, and exactly a damaged one lets the zip library's error through |
| `PortableAgreement.PrintedPasses` | scripts/release-security.py:306-392 | Which manifests printed as the builder prints them pass: those with a valid version and commit that state their own size and whose other entries fit the other files, one for each |
| `PortableAgreement.SomeManifestPasses` | scripts/release-security.py:370-391 | Some manifest passes for an archive if and only if every file in it that is not encrypted can be read |
| `PortableAgreement.HashesForced` | scripts/release-security.py:379-391 | For such an archive, with one JSON reader, every text accepted as its manifest states the hash of a file if and only if the file is not encrypted; so all hashes are forced exactly when no file is encrypted |
| `PortableAgreement.AnyClaimsPass` | scripts/release-security.py:382-384 | For encrypted files any claimed hashes pass: some accepted printed manifest states exactly these, or none |
| `PortableAgreement.WrongHashPasses` | scripts/release-security.py:382-384 | Under every JSON reader that reads printed manifests, an accepted archive whose manifest states a given wrong hash for an encrypted file |
| `PortableAgreement.BuilderIsAccepted` | scripts/build-portable-release.py:292-322 | On what a build writes, nothing is reported except the commit problem, and that exactly when the commit is not forty lower-case hexadecimal digits |
| `PortableAgreement.LongCommitIsRefused` | scripts/release-security.py:340-343 | A repository with nothing tracked and a commit name of 64 characters: its release can be built, and the commit is reported |
| `PortableAgreement.ManifestPinsArchive` | scripts/release-security.py:370-391 | Two accepted archives without encrypted files and with the same manifest have the same names, sizes, modes and contents, hash collisions aside |
| `PortableAgreement.ChecksumsVouchForOneArchive` | scripts/release-security.py:294-303 | The written checksum text passes for the written archive's digest and name and for no other |
| `WebClosure.WebProductionClosure` | scripts/release-security.py:525-592 | The worklist ends and lists, without repeats, one package for exactly the lock entries that a path of dependencies reaches from the roots |
| `WebClosure.ClosureIsProduction` | scripts/release-security.py:555-592 | The same on the mappings of the lock file: every root dependency, and every dependency but the test harness in the `dependencies` or `optionalDependencies` of a listed entry, has its entry listed if it resolves, and every listed entry is named by a root or by an earlier listed entry |
| `WebClosure.ResolveFinds` | scripts/release-security.py:540-552 | A dependency resolves to the entry of its very version, else the first one with peers, else the plain one; links, files and values without a version resolve to none |
| `WebClosure.FollowQueue` | scripts/release-security.py:566-591 | The loop over the queue, for every graph, cyclic or not |
| `WebClosure.SweepEnds` | scripts/release-security.py:568-591 | When the queue is empty the entries seen are exactly the reachable ones |
| `WebClosure.ResolvePrefersExact` | scripts/release-security.py:540-552 | A version resolves to its very entry, else to the first one with peers, else to the plain one, else to none |
| `WebClosure.EdgesSkipHarness` | scripts/release-security.py:585-591 | No edge is the browser test harness |
| `WebClosure.UpdatedGet` | scripts/release-security.py:534-535 | Snapshots override packages of the same key |
| `WebClosure.UpdatedKeepsOrder` | scripts/release-security.py:534-535 | The packages keep their places, and the snapshots with a new key follow in their order, which decides between several entries with peers |
| `Png.IsValidPng` | scripts/release-security.py:595-621 | Accepts exactly the byte strings that are the signature and chunks with matching checksums, one valid header and one empty end at the last byte |
| `Png.AcceptedBytes` | scripts/release-security.py:601-612 | The chunks of an accepted file lie one behind the other: length, type, data, and the low 32 bits of the checksum of type and data, each number with its most significant byte first |
| `Png.AcceptedKinds` | scripts/release-security.py:613-620 | An accepted file starts with the signature; a header has 13 bytes with width and height not zero; the last chunk and no other is the end, without data, and the file ends with it |
| `Png.DecodingUnique` | scripts/release-security.py:601-620 | An accepted file decodes into one list of chunks |
| `Png.HeaderMayComeLate` | scripts/release-security.py:614-617 | The header need not be the first chunk |
| `Base64.UnpaddedRoundTrip` | apps/api/app/core/storage.py:151-153 | Decoding the padded, stripped encoding of any bytes gives the bytes back, for every length (also line 193) |
| `Base64.GroupsAreNumbers` | apps/api/app/core/storage.py:151-153 | Up to three bytes are one number of 24 bits written in four characters, most significant first, padded at the end |
| `Base64.EncodesByGroups` | apps/api/app/core/storage.py:151-153 | Longer texts are encoded three bytes at a time |
| `Base64.AlphabetRuns` | apps/api/app/core/storage.py:151-153 | The characters are those of the URL-safe alphabet, in order |
| `Base64.PaddingReturns` | apps/api/app/core/storage.py:193 | `-len(payload) % 4` restores exactly the padding that was stripped |
| `Base64.DecodesByGroups` | apps/api/app/core/storage.py:193-194 | The decoder reads four characters, of the URL-safe or the standard alphabet, as one number of 24 bits, whose three bytes come in front of what the rest gives |
| `Base64.PaddingEnds` | apps/api/app/core/storage.py:193-194 | A complete padding behind two or three characters ends the text with one or two bytes; what follows is not read |
| `Base64.IncompleteFails` | apps/api/app/core/storage.py:193-194 | One to three characters without a padding are refused |
| `Base64.JunkIsSkipped` | apps/api/app/core/storage.py:193-194 | The decoder skips an ASCII character outside both alphabets, other than `=`, wherever it stands |
| `UploadToken.TokenRoundTrip` | apps/api/app/core/storage.py:185-199 | Verifying an encoded token gives back its metadata if they have not expired, and refuses otherwise |
| `UploadToken.AcceptedTokens` | apps/api/app/core/storage.py:187-197 | A token is accepted if and only if it is a payload, a dot and the payload's own signature, and the payload reads as unexpired metadata |
| `UploadToken.TokensDistinct` | apps/api/app/core/storage.py:150-155 | Different metadata have different tokens |
| `UploadToken.IssuedLifetime` | apps/api/app/core/storage.py:159-168 | An issued token is accepted until 600 s after it was issued and never from 601 s on |

## Left out

Assumptions of the capture model:

- Session ids from `crypto.randomUUID` are fresh and well formed, so the END and slice messages that carry them parse; ARM messages come only from the coordinator; the clock does not go back.
- Armed objects are told apart in the transition system by the generation of their arm message; `InstallsIncrease` and the refinement by `Handle` justify that. Rejections of awaited promises other than `endFullPageCapture`, which has no await and does not reject, are arbitrary.
- Page detection, URL parsing and the parser of arm messages are parameters (`Rules`); the modules they come from are not part of this model, except for the limit of 30 slices.
- Upload, polling, binding, session and hotspot-context messages of the handler, and the popup and command listeners: they touch none of the five maps, apart from the binding lookup, which only reads them.
- Texts of error replies: which refusal a request gets is modelled only as far as it changes the maps or the program counter.

Assumptions of the other parts:

- The in-memory backend never raises; a trace in which it does is allowed and changes no bound.
- Redis: INCR, EXPIRE and the script are atomic and a key is absent once its expiry is reached; TTL replies with the remaining time rounded to the nearest second, halves up, and time does not pass within the script.
- Time is a real number; rounding of floating-point clocks and of `timedelta` to microseconds is not modelled.
- Request categories, client addresses, the middleware and the settings of the limiter: tables and plumbing.
- `SQLAlchemyOperationsStore`, the listing and diagnostic reads of the service, and the two metric counters: nothing is claimed for them. Fields that cancel and retry never touch are not part of `Operations.Task`.
- Backoff.ClassificationIsCaseBlind: upper-casing covers ASCII letters only, because Unicode case mapping is not part of this model.
- JSON text: the encoder's text for a string is a function that quotes the field names as they are, and parsing inverts printing on manifests and on token metadata; floats are real numbers, without NaN and infinities.
- Git, files, zip compression and hashing are functions; reading back a written zip gives what was written; the zip format's upper limit on dates is not modelled.
- The check of a source file (path rules, size limit, links, UTF-8, line endings) is one function of its path, of which only one fact is used: `release-manifest.json` is not allowlisted.
- The messages of the manifest check are collected in any order within each of its loops; their texts are constructors.
- The path, collision, executable and required-file checks of `verify_portable_release`: they are stricter than what the builder promises.
- Lock files: keys of mappings are texts. The fields of a package other than name and version are constants or follow from them. The shared package file is a parameter.
- The CRC is a function; only its low 32 bits count, as in the source.
- Upload tokens: HMAC is a function whose hexadecimal text has no dot; comparing in constant time is comparing. The object key, the presigned request and everything that talks to the object store are not modelled.
- Linters for CI, documentation and exception files, HTTP routers, migrations and demo data.

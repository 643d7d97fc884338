/**
 The slices of one armed full-page session: their sequence numbers, scroll positions and times,
 and the exclusion of concurrent captures.
 */
module CaptureSlices {
  import opened Wrappers
  import opened CaptureModel
  import opened CaptureGenerations
  import opened CaptureFencing

  /** The slices answered with an image for one session, in order. */
  function SlicesOf(slices: seq<Slice>, id: string): seq<Slice> {
    if slices == [] then []
    else
      var last := slices[|slices| - 1];
      SlicesOf(slices[..|slices| - 1], id) + (if last.captureSessionId == id then [last] else [])
  }

  /**
   The k-th slice has number k, the arm's page on the arm's tab, a scroll position that does not go back, and
   times within spacing and lifetime.
   */
  predicate GoodSlice(arm: ArmRecord, xs: seq<Slice>, k: nat)
    requires k < |xs|
  {
    && xs[k].sequence == k && k < SEQUENCE_LIMIT
    && xs[k].page == arm.page && xs[k].sender.id == Some(arm.tab) && xs[k].sender.url == Some(arm.page.url)
    && (if k == 0 then xs[k].scrollY == arm.scrollY else xs[k - 1].scrollY <= xs[k].scrollY)
    && arm.expiresAt - FULL_PAGE_LIFETIME_MS <= xs[k].startedAt <= xs[k].checkedAt <= xs[k].recordedAt
    && xs[k].checkedAt < arm.expiresAt
    && (k > 0 ==> xs[k - 1].recordedAt + MINIMUM_SLICE_INTERVAL_MS <= xs[k].startedAt)
  }

  ghost predicate GoodSlices(arm: ArmRecord, xs: seq<Slice>) {
    forall k | 0 <= k < |xs| :: GoodSlice(arm, xs, k)
  }

  /** The mutable part of an armed object is determined by the slices taken so far. */
  predicate EntryOk(entry: FullEntry, arm: ArmRecord, xs: seq<Slice>) {
    && entry.expiresAt == arm.expiresAt
    && Page(entry.context, entry.url, entry.viewport) == arm.page
    && entry.nextSequence == |xs|
    && entry.lastScrollY == (if xs == [] then arm.scrollY else xs[|xs| - 1].scrollY)
    && entry.lastCaptureAt == (if xs == [] then None else Some(xs[|xs| - 1].recordedAt))
  }

  /** This session was armed on this tab by the message of this generation, once. */
  predicate ArmedBy(history: History, id: string, tab: int, generation: nat) {
    id in history.arms && history.arms[id].tab == tab && history.arms[id].generation == generation
  }

  ghost predicate EntriesOk(armed: map<int, FullEntry>, history: History) {
    forall t | t in armed ::
      && ArmedBy(history, armed[t].captureSessionId, t, armed[t].armGeneration)
      && EntryOk(armed[t], history.arms[armed[t].captureSessionId], SlicesOf(history.slices, armed[t].captureSessionId))
  }

  ghost predicate HistoryOk(history: History, clock: int) {
    && history.arms.Keys <= history.ids
    && (forall id | id in history.arms ::
          history.arms[id].expiresAt - FULL_PAGE_LIFETIME_MS <= clock
          && GoodSlices(history.arms[id], SlicesOf(history.slices, id)))
    && (forall x | x in history.slices :: x.captureSessionId in history.arms)
  }

  /** A capture in flight holds its object, if that is still armed, and fits it. */
  predicate RequestOk(armed: map<int, FullEntry>, history: History, request: SliceRequest, clock: int) {
    && request.message.sequence < SEQUENCE_LIMIT
    && (request.pc.SliceAwaitImage? ==>
          && request.tab.id.Some?
          && request.pc.startedAt <= clock
          && Install(request.tab.id.value, request.pc.armGeneration) in history.installs
          && ArmedBy(history, request.message.captureSessionId, request.tab.id.value, request.pc.armGeneration)
          && PageOf(request.message) == history.arms[request.message.captureSessionId].page
          && request.tab.url == Some(request.message.url)
          && (Holds(armed, request) ==> Fits(armed[request.tab.id.value], request)))
  }

  /** The armed object this request started its capture for is still in the map. */
  predicate Holds(armed: map<int, FullEntry>, request: SliceRequest)
    requires request.pc.SliceAwaitImage? && request.tab.id.Some?
  {
    request.tab.id.value in armed && armed[request.tab.id.value].armGeneration == request.pc.armGeneration
  }

  predicate Fits(entry: FullEntry, request: SliceRequest)
    requires request.pc.SliceAwaitImage?
  {
    && entry.inFlight
    && entry.captureSessionId == request.message.captureSessionId
    && entry.nextSequence == request.message.sequence
    && entry.lastScrollY <= request.message.scrollY
    && (request.message.sequence == 0 ==> request.message.scrollY == entry.lastScrollY)
    && entry.expiresAt - FULL_PAGE_LIFETIME_MS <= request.pc.startedAt
    && (entry.lastCaptureAt.Some? ==> entry.lastCaptureAt.value + MINIMUM_SLICE_INTERVAL_MS <= request.pc.startedAt)
  }

  ghost predicate RequestsOk(
      armed: map<int, FullEntry>, history: History, requests: map<nat, SliceRequest>, clock: int) {
    forall q | q in requests :: RequestOk(armed, history, requests[q], clock)
  }

  /** Two captures in flight on one tab belong to different armed objects. */
  predicate Exclusive(request: SliceRequest, request': SliceRequest) {
    request.pc.SliceAwaitImage? && request'.pc.SliceAwaitImage? && request.tab.id == request'.tab.id ==>
      request.pc.armGeneration != request'.pc.armGeneration
  }

  ghost predicate CapturesExclusive(requests: map<nat, SliceRequest>) {
    forall q, q' | q in requests && q' in requests && q != q' :: Exclusive(requests[q], requests[q'])
  }

  ghost predicate RunsUnarmed(history: History, runs: map<nat, Run>) {
    forall r | r in runs && ArmUndecided(runs[r]) && runs[r].session.Some? ::
      runs[r].session.value.captureSessionId !in history.arms
  }

  ghost predicate SlicesOk(s: State) {
    && EntriesOk(s.tabs.armedFullPageTabs, s.history)
    && HistoryOk(s.history, s.clock)
    && RequestsOk(s.tabs.armedFullPageTabs, s.history, s.sliceRequests, s.clock)
    && CapturesExclusive(s.sliceRequests)
    && RunsUnarmed(s.history, s.runs)
  }

  // ---- Steps of the coordinator ----

  /** Dropping arms and letting time pass keeps everything said about slices. */
  lemma DropKeepsSlices(s: State, s': State)
    requires SlicesOk(s)
    requires SubMap(s.tabs.armedFullPageTabs, s'.tabs.armedFullPageTabs)
    requires s'.history.arms == s.history.arms && s'.history.slices == s.history.slices
    requires s'.history.installs == s.history.installs && s.history.ids <= s'.history.ids
    requires s'.sliceRequests == s.sliceRequests && s.clock <= s'.clock && RunsUnarmed(s'.history, s'.runs)
    ensures SlicesOk(s')
  {
  }

  lemma SetPcKeepsSlices(s: State, r: nat, pc: StartPc)
    requires SlicesOk(s) && r in s.runs
    requires pc.AwaitPreviousDiscard? || pc.AwaitStatus? || pc.AwaitActiveTab? ==> ArmUndecided(s.runs[r])
    ensures SlicesOk(SetPc(s, r, pc))
  {
  }

  lemma FailKeepsSlices(s: State, r: nat, error: StartError)
    requires SlicesOk(s) && r in s.runs
    ensures SlicesOk(Fail(s, r, error)) && SlicesOk(FailIfRecorded(s, r, error))
  {
    SetPcKeepsSlices(s, r, Threw(error));
    if s.runs[r].session.Some? {
      SetPcKeepsSlices(s, r, AwaitDiscard(error));
      DiscardDrops(s.tabs, s.runs[r].tab.id, s.runs[r].session.value);
      DropKeepsSlices(SetPc(s, r, AwaitDiscard(error)), Fail(s, r, error));
    }
  }

  lemma StartKeepsSlices(s: State, r: nat, mode: Mode, tab: SupportedTab, uuid: string)
    requires SlicesOk(s) && r !in s.runs && uuid !in s.history.ids
    ensures SlicesOk(StartCapture(s, r, mode, tab, uuid))
  {
    var s' := StartCapture(s, r, mode, tab, uuid);
    forall r0 | r0 in s'.runs && ArmUndecided(s'.runs[r0]) && s'.runs[r0].session.Some?
      ensures s'.runs[r0].session.value.captureSessionId !in s'.history.arms
    {
      if r0 != r { assert ArmUndecided(s.runs[r0]); }
    }
    DropKeepsSlices(s, s');
  }

  lemma ReceiveArmKeepsSlices(rules: Rules, s: State, r: nat, arm: ArmMessage)
    requires SlicesOk(s) && r in s.runs && s.runs[r].pc.AwaitStatus?
    ensures SlicesOk(ReceiveArm(rules, s, r, arm))
  {
  }

  lemma StatusKeepsSlices(rules: Rules, s: State, r: nat, reply: Option<PageStatus>)
    requires SlicesOk(s) && r in s.runs && s.runs[r].pc.AwaitStatus?
    ensures SlicesOk(StatusReply(rules, s, r, reply))
  {
    FailKeepsSlices(s, r, BrowserFailure);
    FailKeepsSlices(s, r, CaptureReplaced);
    FailKeepsSlices(s, r, InactiveOrUnsupportedTab);
    FailKeepsSlices(s, r, ContextMismatch);
    if reply.Some? && (s.runs[r].session.Some? ==> reply.value.viewport.Some? && reply.value.scrollY.Some?) {
      ReceiveArmKeepsSlices(rules, s, r, ArmMessageOf(s.runs[r], reply.value));
    }
  }

  lemma RepliesKeepSlices(s: State, r: nat, answer: Answer)
    requires SlicesOk(s) && r in s.runs
    ensures s.runs[r].pc.AwaitArmReply? ==> SlicesOk(ArmReply(s, r))
    ensures SlicesOk(ContentReply(s, r, answer))
  {
    FailKeepsSlices(s, r, BrowserFailure);
    FailKeepsSlices(s, r, CaptureReplaced);
    FailKeepsSlices(s, r, NotArmed);
    FailKeepsSlices(s, r, StartFailed);
    SetPcKeepsSlices(s, r, AwaitContent);
    SetPcKeepsSlices(s, r, Returned);
  }

  lemma NoSlicesOf(slices: seq<Slice>, id: string)
    requires forall x | x in slices :: x.captureSessionId != id
    ensures SlicesOf(slices, id) == []
  {
  }

  /** A new armed object starts without slices, and no capture in flight refers to it. */
  lemma InstallKeepsSlices(s: State, r: nat, url: string, now: int)
    requires GenerationsOk(s) && FencingOk(s) && SlicesOk(s) && s.clock <= now
    requires r in s.runs && s.runs[r].pc.AwaitActiveTab?
    ensures SlicesOk(SetPc(s, r, AwaitArmReply(Replied(true))).(
              tabs := InstallArm(s.tabs, s.runs[r].pc.arm, url, now),
              history := RecordArm(s.history, s.runs[r].pc.arm, now),
              clock := now))
  {
    var run := s.runs[r];
    var arm := run.pc.arm;
    var s' := SetPc(s, r, AwaitArmReply(Replied(true))).(
      tabs := InstallArm(s.tabs, arm, url, now), history := RecordArm(s.history, arm, now), clock := now);
    assert RunOk(s.tabs, s.history.ids, run);
    assert Install(run.tab.id, run.generation) !in s.history.installs;
    if arm.FullArm? {
      NoSlicesOf(s.history.slices, arm.captureSessionId);
    }
    forall q | q in s'.sliceRequests
      ensures RequestOk(s'.tabs.armedFullPageTabs, s'.history, s'.sliceRequests[q], s'.clock)
    {
      assert RequestOk(s.tabs.armedFullPageTabs, s.history, s.sliceRequests[q], s.clock);
    }
    forall r0 | r0 in s'.runs && ArmUndecided(s'.runs[r0]) && s'.runs[r0].session.Some?
      ensures s'.runs[r0].session.value.captureSessionId !in s'.history.arms
    {
      assert Apart(s.runs[r0], run);
    }
  }

  lemma ArmActiveTabKeepsSlices(rules: Rules, s: State, r: nat, reply: Option<BrowserTab>, now: int)
    requires GenerationsOk(s) && FencingOk(s) && SlicesOk(s) && s.clock <= now
    requires r in s.runs && s.runs[r].pc.AwaitActiveTab?
    ensures SlicesOk(ArmActiveTab(rules, s, r, reply, now).(clock := now))
  {
    if reply.Some? && ArmMatchesActiveTab(rules, s.runs[r].pc.arm, reply.value) {
      InstallKeepsSlices(s, r, reply.value.url.value, now);
    }
    SetPcKeepsSlices(s, r, AwaitArmReply(Rejected));
    SetPcKeepsSlices(s, r, AwaitArmReply(Replied(false)));
    DropKeepsSlices(SetPc(s, r, AwaitArmReply(Rejected)), SetPc(s, r, AwaitArmReply(Rejected)).(clock := now));
    DropKeepsSlices(SetPc(s, r, AwaitArmReply(Replied(false))),
                    SetPc(s, r, AwaitArmReply(Replied(false))).(clock := now));
  }

  // ---- Steps of slice requests ----

  lemma RefuseKeepsSlices(s: State, q: nat, tab: int, drop: bool, now: int)
    requires SlicesOk(s) && q in s.sliceRequests && s.clock <= now
    ensures var refused := SetSlicePc(s, q, SliceRefused).(clock := now);
            SlicesOk(if drop then refused.(tabs := DropFullArm(s.tabs, tab)) else refused)
  {
  }

  /** A capture starts only on an idle object, so no other capture in flight holds that object. */
  lemma AcceptKeepsSlices(rules: Rules, s: State, q: nat, active: BrowserTab, now: int, later: int)
    requires FencingOk(s) && SlicesOk(s) && q in s.sliceRequests && s.sliceRequests[q].tab.id.Some?
    requires s.clock <= now <= later
    requires JudgeSlice(rules, s.tabs, s.sliceRequests[q], active, now, later).Accept?
    ensures SlicesOk(SliceActiveTab(rules, s, q, Some(active), now, later).(clock := later))
  {
    var s' := SliceActiveTab(rules, s, q, Some(active), now, later).(clock := later);
    var tab := s.sliceRequests[q].tab.id.value;
    var armed := s.tabs.armedFullPageTabs;
    var armed' := s'.tabs.armedFullPageTabs;
    assert armed' == armed[tab := armed[tab].(inFlight := true)];
    forall q0 | q0 in s.sliceRequests
      ensures RequestOk(armed', s.history, s'.sliceRequests[q0], later)
      ensures q0 != q ==>
                && Exclusive(s'.sliceRequests[q0], s'.sliceRequests[q])
                && Exclusive(s'.sliceRequests[q], s'.sliceRequests[q0])
    {
      assert RequestOk(armed, s.history, s.sliceRequests[q0], s.clock);
    }
    forall q0, q1 | q0 in s'.sliceRequests && q1 in s'.sliceRequests && q0 != q1
      ensures Exclusive(s'.sliceRequests[q0], s'.sliceRequests[q1])
    {
      if q0 != q && q1 != q { assert Exclusive(s.sliceRequests[q0], s.sliceRequests[q1]); }
    }
  }

  lemma SliceActiveTabKeepsSlices(rules: Rules, s: State, q: nat, reply: Option<BrowserTab>, now: int, later: int)
    requires FencingOk(s) && SlicesOk(s) && q in s.sliceRequests && s.clock <= now <= later
    ensures SlicesOk(SliceActiveTab(rules, s, q, reply, now, later).(clock := later))
  {
    RefuseKeepsSlices(s, q, 0, false, later);
    if reply.Some? && s.sliceRequests[q].tab.id.Some? {
      RefuseKeepsSlices(s, q, s.sliceRequests[q].tab.id.value, true, later);
      if JudgeSlice(rules, s.tabs, s.sliceRequests[q], reply.value, now, later).Accept? {
        AcceptKeepsSlices(rules, s, q, reply.value, now, later);
      }
    }
  }

  /** The next slice extends the good slices of its session. */
  lemma GoodSlicesExtend(arm: ArmRecord, xs: seq<Slice>, x: Slice)
    requires GoodSlices(arm, xs) && GoodSlice(arm, xs + [x], |xs|)
    ensures GoodSlices(arm, xs + [x])
  {
    forall k | 0 <= k < |xs + [x]| ensures GoodSlice(arm, xs + [x], k) {
      assert k < |xs| ==> GoodSlice(arm, xs, k);
    }
  }

  lemma SlicesOfAppend(slices: seq<Slice>, x: Slice, id: string)
    ensures SlicesOf(slices + [x], id) ==
            if x.captureSessionId == id then SlicesOf(slices, id) + [x] else SlicesOf(slices, id)
  {
  }

  lemma ImageKeepsHistory(
      history: History, clock: int, armed: map<int, FullEntry>, tab: int, x: Slice, entry: FullEntry)
    requires HistoryOk(history, clock) && EntriesOk(armed, history)
    requires tab in armed && x.captureSessionId == armed[tab].captureSessionId == entry.captureSessionId
    requires entry.armGeneration == armed[tab].armGeneration
    requires var arm := history.arms[x.captureSessionId]; var xs := SlicesOf(history.slices, x.captureSessionId);
             GoodSlice(arm, xs + [x], |xs|) && EntryOk(entry, arm, xs + [x])
    ensures var history' := history.(slices := history.slices + [x]);
            HistoryOk(history', clock) && EntriesOk(armed[tab := entry], history')
  {
    var history' := history.(slices := history.slices + [x]);
    forall id | id in history.arms
      ensures GoodSlices(history.arms[id], SlicesOf(history'.slices, id))
    {
      SlicesOfAppend(history.slices, x, id);
      if id == x.captureSessionId { GoodSlicesExtend(history.arms[id], SlicesOf(history.slices, id), x); }
    }
    forall t | t in armed
      ensures var e := armed[tab := entry][t];
              EntryOk(e, history.arms[e.captureSessionId], SlicesOf(history'.slices, e.captureSessionId))
    {
      SlicesOfAppend(history.slices, x, armed[t].captureSessionId);
    }
  }

  /** The capture that finishes was the only one to hold its object. */
  lemma ImageKeepsRequests(
      armed: map<int, FullEntry>, history: History, requests: map<nat, SliceRequest>, q: nat, tab: int,
      entry: FullEntry, x: Slice, clock: int, later: int)
    requires RequestsOk(armed, history, requests, clock) && CapturesExclusive(requests) && clock <= later
    requires q in requests && requests[q].pc.SliceAwaitImage? && requests[q].tab.id == Some(tab)
    requires tab in armed && armed[tab].armGeneration == requests[q].pc.armGeneration == entry.armGeneration
    ensures var requests' := requests[q := requests[q].(pc := SliceImage)];
            RequestsOk(armed[tab := entry], history.(slices := history.slices + [x]), requests', later)
            && CapturesExclusive(requests')
  {
  }

  lemma ImageKeepsSlices(s: State, q: nat, now: int, later: int)
    requires SlicesOk(s) && q in s.sliceRequests && s.sliceRequests[q].pc.SliceAwaitImage?
    requires s.clock <= now <= later && s.sliceRequests[q].tab.id.Some?
    requires Holds(s.tabs.armedFullPageTabs, s.sliceRequests[q])
    requires now < s.tabs.armedFullPageTabs[s.sliceRequests[q].tab.id.value].expiresAt
    ensures SlicesOk(SliceShot(s, q, true, now, later).(clock := later))
  {
    var request := s.sliceRequests[q];
    var tab := request.tab.id.value;
    var s' := SliceShot(s, q, true, now, later).(clock := later);
    var armed := s.tabs.armedFullPageTabs;
    var x := s'.history.slices[|s.history.slices|];
    assert RequestOk(armed, s.history, request, s.clock);
    ImageKeepsHistory(s.history, later, armed, tab, x, s'.tabs.armedFullPageTabs[tab]);
    ImageKeepsRequests(armed, s.history, s.sliceRequests, q, tab, s'.tabs.armedFullPageTabs[tab], x, s.clock, later);
  }

  lemma SliceShotKeepsSlices(s: State, q: nat, image: bool, now: int, later: int)
    requires SlicesOk(s) && q in s.sliceRequests && s.sliceRequests[q].pc.SliceAwaitImage? && s.clock <= now <= later
    ensures SlicesOk(SliceShot(s, q, image, now, later).(clock := later))
  {
    var request := s.sliceRequests[q];
    RefuseKeepsSlices(s, q, 0, false, later);
    if request.tab.id.Some? && IsArmed(s.tabs, request.tab.id.value, request.pc.armGeneration) {
      RefuseKeepsSlices(s, q, request.tab.id.value, true, later);
      if image && now < s.tabs.armedFullPageTabs[request.tab.id.value].expiresAt {
        ImageKeepsSlices(s, q, now, later);
      }
    }
  }

  lemma NewSliceKeepsSlices(s: State, q: nat, sender: BrowserTab, message: SliceMessage)
    requires SlicesOk(s) && q !in s.sliceRequests && message.sequence < SEQUENCE_LIMIT
    ensures SlicesOk(s.(sliceRequests := s.sliceRequests[q := SliceRequest(sender, message, SliceAwaitActiveTab)]))
  {
  }

  lemma ShotKeepsSlices(rules: Rules, s: State, q: nat, reply: Option<BrowserTab>, now: int)
    requires SlicesOk(s) && q in s.shotRequests && s.clock <= now
    ensures SlicesOk(ShotActiveTab(rules, s, q, reply, now).(clock := now))
  {
    DropKeepsSlices(s, ShotActiveTab(rules, s, q, reply, now).(clock := now));
  }

  /** The steps of `startCapture` calls. */
  lemma CallsKeepSlices(rules: Rules, s: State, e: Event)
    requires GenerationsOk(s) && FencingOk(s) && SlicesOk(s) && Enabled(s, e)
    requires IsCallEvent(e)
    ensures SlicesOk(Step(rules, s, e))
  {
    match e
    case EvStart(r, mode, tab, allowHotspot, uuid) => StartKeepsSlices(s, r, mode, tab, uuid);
    case EvPreviousDiscarded(r) => DiscardedKeepsSlices(s, r);
    case EvStatus(r, status) => StatusKeepsSlices(rules, s, r, status);
    case EvArmActiveTab(r, active, now) => ArmActiveTabKeepsSlices(rules, s, r, active, now);
    case EvArmReply(r) => RepliesKeepSlices(s, r, Rejected);
    case EvContent(r, answer) => RepliesKeepSlices(s, r, answer);
    case EvDiscarded(r) => SetPcKeepsSlices(s, r, Threw(s.runs[r].pc.error));
  }

  lemma DiscardedKeepsSlices(s: State, r: nat)
    requires SlicesOk(s) && r in s.runs && s.runs[r].pc.AwaitPreviousDiscard?
    ensures SlicesOk(PreviousDiscarded(s, r))
  {
  }

  /** The steps of slice and visible-tab requests. */
  lemma RequestsKeepSlices(rules: Rules, s: State, e: Event)
    requires GenerationsOk(s) && FencingOk(s) && SlicesOk(s) && Enabled(s, e) && IsRequestEvent(e) && !e.EvEnd?
    ensures SlicesOk(Step(rules, s, e))
  {
    match e
    case EvSlice(q, sender, message) => NewSliceKeepsSlices(s, q, sender, message);
    case EvSliceActiveTab(q, active, now, later) => SliceActiveTabKeepsSlices(rules, s, q, active, now, later);
    case EvSliceShot(q, image, now, later) => SliceShotKeepsSlices(s, q, image, now, later);
    case EvShotActiveTab(q, active, now) => ShotKeepsSlices(rules, s, q, active, now);
    case EvShot(q, sender, pageSignature) =>
    case EvShotImage(q, image) =>
  }

  lemma DropsKeepSlices(rules: Rules, s: State, e: Event)
    requires SlicesOk(s) && (e.EvCancel? || e.EvEnd?)
    ensures SlicesOk(Step(rules, s, e))
  {
  }

  lemma SlicesStep(rules: Rules, s: State, e: Event)
    requires GenerationsOk(s) && FencingOk(s) && SlicesOk(s) && Enabled(s, e)
    ensures SlicesOk(Step(rules, s, e))
  {
    if e.EvCancel? || e.EvEnd? {
      DropsKeepSlices(rules, s, e);
    } else if IsRequestEvent(e) {
      RequestsKeepSlices(rules, s, e);
    } else {
      CallsKeepSlices(rules, s, e);
    }
  }

  lemma SlicesInitially(clock: int)
    ensures SlicesOk(Initial(clock))
  {
  }
}

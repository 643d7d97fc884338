/**
 What every step of the capture protocol keeps about generations and session ids.
 */
module CaptureGenerations {
  import opened Wrappers
  import opened CaptureModel

  predicate ArmBelongsTo(arm: ArmMessage, run: Run) {
    && arm.tab == run.tab.id && arm.generation == run.generation
    && (if run.session.Some? then arm.FullArm? && arm.captureSessionId == run.session.value.captureSessionId
        else arm.SafeArm?)
  }

  predicate RunOk(tabs: Tabs, ids: set<string>, run: Run) {
    && run.tab.id in tabs.generations && 0 < run.generation <= tabs.generations[run.tab.id]
    && (run.session.Some? ==> run.session.value.generation == run.generation
                              && run.session.value.captureSessionId in ids)
    && PcOk(tabs, run)
  }

  predicate PcOk(tabs: Tabs, run: Run) {
    match run.pc
    case AwaitActiveTab(arm) => ArmBelongsTo(arm, run) && run.tab.id in tabs.latestArmGenerations
    case AwaitDiscard(_) => run.session.Some?
    case _ => true
  }

  ghost predicate RunsOk(tabs: Tabs, ids: set<string>, runs: map<nat, Run>) {
    forall r | r in runs :: RunOk(tabs, ids, runs[r])
  }

  /** No two calls share a generation of a tab, nor a session id. */
  predicate Apart(run: Run, run': Run) {
    && (run.tab.id == run'.tab.id ==> run.generation != run'.generation)
    && (run.session.Some? && run'.session.Some? ==>
          run.session.value.captureSessionId != run'.session.value.captureSessionId)
  }

  ghost predicate RunsApart(runs: map<nat, Run>) {
    forall r, r' | r in runs && r' in runs && r != r' :: Apart(runs[r], runs[r'])
  }

  /** Every recorded session has the current generation of its tab. */
  ghost predicate TabsOk(tabs: Tabs, ids: set<string>) {
    && (forall tab | tab in tabs.fullPageSessions ::
          tab in tabs.generations && tabs.fullPageSessions[tab].generation == tabs.generations[tab]
          && tabs.fullPageSessions[tab].captureSessionId in ids)
    && (forall tab | tab in tabs.latestArmGenerations ::
          tab in tabs.generations && tabs.latestArmGenerations[tab] <= tabs.generations[tab])
    && (forall tab | tab in tabs.armedFullPageTabs :: tabs.armedFullPageTabs[tab].captureSessionId in ids)
  }

  ghost predicate GenerationsOk(s: State) {
    RunsOk(s.tabs, s.history.ids, s.runs) && RunsApart(s.runs) && TabsOk(s.tabs, s.history.ids)
  }

  // ---- Shared pieces ----

  /** Nothing is added to the sessions and the arms, and no generation changes. */
  ghost predicate Narrows(tabs: Tabs, tabs': Tabs) {
    && tabs'.generations == tabs.generations
    && tabs'.latestArmGenerations == tabs.latestArmGenerations
    && (forall t | t in tabs'.fullPageSessions ::
          t in tabs.fullPageSessions && tabs'.fullPageSessions[t] == tabs.fullPageSessions[t])
    && ArmsNarrow(tabs, tabs')
  }

  ghost predicate ArmsNarrow(tabs: Tabs, tabs': Tabs) {
    && (forall t | t in tabs'.armedTabs :: t in tabs.armedTabs && tabs'.armedTabs[t] == tabs.armedTabs[t])
    && (forall t | t in tabs'.armedFullPageTabs ::
          t in tabs.armedFullPageTabs
          && tabs'.armedFullPageTabs[t].captureSessionId == tabs.armedFullPageTabs[t].captureSessionId
          && tabs'.armedFullPageTabs[t].armGeneration == tabs.armedFullPageTabs[t].armGeneration)
  }

  ghost predicate SubMap(armed: map<int, FullEntry>, armed': map<int, FullEntry>) {
    forall t | t in armed' :: t in armed && armed'[t] == armed[t]
  }

  lemma DiscardDrops(tabs: Tabs, tab: int, session: Session)
    ensures SubMap(tabs.armedFullPageTabs, DiscardFullPage(tabs, tab, session).armedFullPageTabs)
  {
  }

  lemma DiscardNarrows(tabs: Tabs, tab: int, session: Session)
    ensures Narrows(tabs, DiscardFullPage(tabs, tab, session))
  {
  }

  lemma NarrowsKeepsTabs(tabs: Tabs, tabs': Tabs, ids: set<string>)
    requires TabsOk(tabs, ids) && Narrows(tabs, tabs')
    ensures TabsOk(tabs', ids)
  {
  }

  /** One call moves to another await; the generations only grow. */
  lemma AdvanceRun(tabs: Tabs, tabs': Tabs, ids: set<string>, runs: map<nat, Run>, r: nat, pc: StartPc)
    requires RunsOk(tabs, ids, runs) && RunsApart(runs) && r in runs
    requires tabs'.generations == tabs.generations
    requires tabs.latestArmGenerations.Keys <= tabs'.latestArmGenerations.Keys
    requires PcOk(tabs', runs[r].(pc := pc))
    ensures RunsOk(tabs', ids, runs[r := runs[r].(pc := pc)])
    ensures RunsApart(runs[r := runs[r].(pc := pc)])
  {
  }

  lemma FailKeeps(s: State, r: nat, error: StartError)
    requires GenerationsOk(s) && r in s.runs
    ensures GenerationsOk(Fail(s, r, error))
  {
    var run := s.runs[r];
    if run.session.Some? {
      var tabs := DiscardFullPage(s.tabs, run.tab.id, run.session.value);
      DiscardNarrows(s.tabs, run.tab.id, run.session.value);
      NarrowsKeepsTabs(s.tabs, tabs, s.history.ids);
      AdvanceRun(s.tabs, tabs, s.history.ids, s.runs, r, AwaitDiscard(error));
    } else {
      AdvanceRun(s.tabs, s.tabs, s.history.ids, s.runs, r, Threw(error));
    }
  }

  lemma SetPcKeeps(s: State, r: nat, pc: StartPc)
    requires GenerationsOk(s) && r in s.runs && PcOk(s.tabs, s.runs[r].(pc := pc))
    ensures GenerationsOk(SetPc(s, r, pc))
  {
  }

  lemma FailIfRecordedKeeps(s: State, r: nat, error: StartError)
    requires GenerationsOk(s) && r in s.runs
    ensures GenerationsOk(FailIfRecorded(s, r, error))
  {
    FailKeeps(s, r, error);
    SetPcKeeps(s, r, Threw(error));
  }

  // ---- The steps that are not made of those pieces alone ----

  lemma StartKeeps(s: State, r: nat, mode: Mode, tab: SupportedTab, uuid: string)
    requires GenerationsOk(s) && r !in s.runs && uuid !in s.history.ids
    ensures GenerationsOk(StartCapture(s, r, mode, tab, uuid))
  {
    var s' := StartCapture(s, r, mode, tab, uuid);
    var run := s'.runs[r];
    var entered := EnterCapture(s.tabs, tab.id, run.generation, run.session);
    assert TabsOk(entered, s'.history.ids);
    if tab.id in s.tabs.fullPageSessions {
      DiscardNarrows(entered, tab.id, s.tabs.fullPageSessions[tab.id]);
      NarrowsKeepsTabs(entered, s'.tabs, s'.history.ids);
    }
    forall r0 | r0 in s'.runs ensures RunOk(s'.tabs, s'.history.ids, s'.runs[r0]) {
      if r0 != r { assert RunOk(s.tabs, s.history.ids, s.runs[r0]); }
    }
    forall r0 | r0 in s.runs ensures Apart(s.runs[r0], run) && Apart(run, s.runs[r0]) {
      assert RunOk(s.tabs, s.history.ids, s.runs[r0]);
    }
    forall r0, r1 | r0 in s'.runs && r1 in s'.runs && r0 != r1 ensures Apart(s'.runs[r0], s'.runs[r1]) {
      if r0 != r && r1 != r { assert Apart(s.runs[r0], s.runs[r1]); }
    }
  }

  lemma ReceiveArmKeeps(rules: Rules, s: State, r: nat, arm: ArmMessage)
    requires GenerationsOk(s) && r in s.runs && ArmBelongsTo(arm, s.runs[r])
    ensures GenerationsOk(ReceiveArm(rules, s, r, arm))
  {
    var s' := ReceiveArm(rules, s, r, arm);
    assert RunOk(s.tabs, s.history.ids, s.runs[r]);
    AdvanceRun(s.tabs, s'.tabs, s.history.ids, s.runs, r, s'.runs[r].pc);
  }

  lemma StatusKeeps(rules: Rules, s: State, r: nat, reply: Option<PageStatus>)
    requires GenerationsOk(s) && r in s.runs
    ensures GenerationsOk(StatusReply(rules, s, r, reply))
  {
    var run := s.runs[r];
    if reply.None? {
      FailIfRecordedKeeps(s, r, BrowserFailure);
    } else {
      FailKeeps(s, r, CaptureReplaced);
      FailKeeps(s, r, InactiveOrUnsupportedTab);
      FailKeeps(s, r, ContextMismatch);
      if run.session.Some? ==> reply.value.viewport.Some? && reply.value.scrollY.Some? {
        ReceiveArmKeeps(rules, s, r, ArmMessageOf(run, reply.value));
      }
    }
  }

  lemma ArmActiveTabKeeps(rules: Rules, s: State, r: nat, reply: Option<BrowserTab>, now: int)
    requires GenerationsOk(s) && r in s.runs && s.runs[r].pc.AwaitActiveTab?
    ensures GenerationsOk(ArmActiveTab(rules, s, r, reply, now))
  {
    var s' := ArmActiveTab(rules, s, r, reply, now);
    assert RunOk(s.tabs, s.history.ids, s.runs[r]);
    AdvanceRun(s.tabs, s'.tabs, s.history.ids, s.runs, r, s'.runs[r].pc);
  }

  lemma CancelKeeps(s: State)
    requires GenerationsOk(s)
    ensures GenerationsOk(s.(tabs := CancelAll(s.tabs)))
  {
  }

  lemma ArmReplyKeeps(s: State, r: nat)
    requires GenerationsOk(s) && r in s.runs && s.runs[r].pc.AwaitArmReply?
    ensures GenerationsOk(ArmReply(s, r))
  {
    FailIfRecordedKeeps(s, r, BrowserFailure);
    FailKeeps(s, r, CaptureReplaced);
    FailKeeps(s, r, NotArmed);
    SetPcKeeps(s, r, AwaitContent);
  }

  lemma ContentReplyKeeps(s: State, r: nat, answer: Answer)
    requires GenerationsOk(s) && r in s.runs
    ensures GenerationsOk(ContentReply(s, r, answer))
  {
    FailIfRecordedKeeps(s, r, BrowserFailure);
    FailKeeps(s, r, CaptureReplaced);
    FailKeeps(s, r, StartFailed);
    SetPcKeeps(s, r, Returned);
  }

  // The steps of slice and visible-tab requests only narrow the maps.

  lemma DroppingNarrows(tabs: Tabs, tab: int)
    ensures Narrows(tabs, DropFullArm(tabs, tab))
  {
  }

  lemma FlightNarrows(tabs: Tabs, tab: int)
    requires tab in tabs.armedFullPageTabs
    ensures var armed := tabs.armedFullPageTabs[tab].(inFlight := true);
            Narrows(tabs, tabs.(armedFullPageTabs := tabs.armedFullPageTabs[tab := armed]))
  {
  }

  lemma SliceActiveTabNarrows(rules: Rules, s: State, q: nat, reply: Option<BrowserTab>, now: int, later: int)
    requires q in s.sliceRequests
    ensures var s' := SliceActiveTab(rules, s, q, reply, now, later);
            RequestStep(s, s') && s'.tabs.fullPageSessions == s.tabs.fullPageSessions
  {
    if s.sliceRequests[q].tab.id.Some? {
      var tab := s.sliceRequests[q].tab.id.value;
      DroppingNarrows(s.tabs, tab);
      if tab in s.tabs.armedFullPageTabs { FlightNarrows(s.tabs, tab); }
    }
  }

  lemma SliceShotNarrows(s: State, q: nat, image: bool, now: int, later: int)
    requires q in s.sliceRequests && s.sliceRequests[q].pc.SliceAwaitImage?
    ensures var s' := SliceShot(s, q, image, now, later);
            RequestStep(s, s') && s'.tabs.fullPageSessions == s.tabs.fullPageSessions
  {
  }

  lemma SpendingNarrows(tabs: Tabs, tab: int)
    ensures Narrows(tabs, tabs.(armedTabs := tabs.armedTabs - {tab}))
  {
  }

  lemma ShotActiveTabNarrows(rules: Rules, s: State, q: nat, reply: Option<BrowserTab>, now: int)
    requires q in s.shotRequests
    ensures var s' := ShotActiveTab(rules, s, q, reply, now);
            RequestStep(s, s') && s'.tabs.fullPageSessions == s.tabs.fullPageSessions
  {
    if s.shotRequests[q].tab.id.Some? { SpendingNarrows(s.tabs, s.shotRequests[q].tab.id.value); }
  }

  /** What the steps of END, slice and visible-tab requests have in common. */
  ghost predicate RequestStep(s: State, s': State) {
    Narrows(s.tabs, s'.tabs) && s'.runs == s.runs && s'.history.ids == s.history.ids
  }

  predicate IsRequestEvent(e: Event) {
    e.EvEnd? || e.EvSlice? || e.EvSliceActiveTab? || e.EvSliceShot? || e.EvShot? || e.EvShotActiveTab? || e.EvShotImage?
  }

  lemma RequestsNarrow(rules: Rules, s: State, e: Event)
    requires Enabled(s, e) && IsRequestEvent(e)
    ensures RequestStep(s, Step(rules, s, e))
    ensures e.EvEnd? || Step(rules, s, e).tabs.fullPageSessions == s.tabs.fullPageSessions
  {
    match e
    case EvSliceActiveTab(q, active, now, later) => SliceActiveTabNarrows(rules, s, q, active, now, later);
    case EvSliceShot(q, image, now, later) => SliceShotNarrows(s, q, image, now, later);
    case EvShotActiveTab(q, active, now) => ShotActiveTabNarrows(rules, s, q, active, now);
    case _ =>
  }

  lemma RequestsKeep(s: State, s': State)
    requires GenerationsOk(s) && RequestStep(s, s')
    ensures GenerationsOk(s')
  {
  }

  /** The events of `startCapture` calls. */
  predicate IsCallEvent(e: Event) {
    || e.EvStart? || e.EvPreviousDiscarded? || e.EvStatus? || e.EvArmActiveTab? || e.EvArmReply? || e.EvContent?
    || e.EvDiscarded?
  }

  lemma CallsKeep(rules: Rules, s: State, e: Event)
    requires GenerationsOk(s) && Enabled(s, e) && IsCallEvent(e)
    ensures GenerationsOk(Step(rules, s, e))
  {
    match e
    case EvStart(r, mode, tab, allowHotspot, uuid) => StartKeeps(s, r, mode, tab, uuid);
    case EvPreviousDiscarded(r) => SetPcKeeps(s, r, AwaitStatus); FailKeeps(s, r, CaptureReplaced);
    case EvStatus(r, status) => StatusKeeps(rules, s, r, status);
    case EvArmActiveTab(r, active, now) => ArmActiveTabKeeps(rules, s, r, active, now);
    case EvArmReply(r) => ArmReplyKeeps(s, r);
    case EvContent(r, answer) => ContentReplyKeeps(s, r, answer);
    case EvDiscarded(r) => SetPcKeeps(s, r, Threw(s.runs[r].pc.error));
  }

  lemma GenerationsStep(rules: Rules, s: State, e: Event)
    requires GenerationsOk(s) && Enabled(s, e)
    ensures GenerationsOk(Step(rules, s, e))
  {
    if IsCallEvent(e) {
      CallsKeep(rules, s, e);
    } else if e.EvCancel? {
      CancelKeeps(s);
    } else {
      RequestsNarrow(rules, s, e);
      RequestsKeep(s, Step(rules, s, e));
    }
  }

  lemma GenerationsInitially(clock: int)
    ensures GenerationsOk(Initial(clock))
  {
  }
}

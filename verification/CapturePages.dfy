/**
 Which pages get an image. Every answer of the browser that decides about an arm, a slice or a visible-tab
 capture is stated here on the messages: what the arm message said, what has been captured since, and what
 the request and the active tab say now.
 */
module CapturePages {
  import opened Wrappers
  import opened CaptureModel
  import opened CaptureGenerations
  import opened CaptureFencing
  import opened CaptureSlices
  import opened CaptureFrames
  import opened CaptureTheorems

  // ---- Busy objects ----

  predicate IsCapturing(request: SliceRequest, tab: int, generation: nat) {
    request.tab.id == Some(tab) && request.pc.SliceAwaitImage? && request.pc.armGeneration == generation
  }

  ghost predicate CaptureRuns(requests: map<nat, SliceRequest>, tab: int, generation: nat) {
    exists q | q in requests :: IsCapturing(requests[q], tab, generation)
  }

  /** An armed object that is busy is held by a capture in flight. */
  ghost predicate FlightsHeld(s: State) {
    forall t | t in s.tabs.armedFullPageTabs && s.tabs.armedFullPageTabs[t].inFlight ::
      CaptureRuns(s.sliceRequests, t, s.tabs.armedFullPageTabs[t].armGeneration)
  }

  /** Armed objects are dropped, or armed anew and idle; the slice requests that were there are as they were. */
  ghost predicate LeavesSlices(s: State, s': State) {
    && (forall t | t in s'.tabs.armedFullPageTabs ::
          || (t in s.tabs.armedFullPageTabs && s'.tabs.armedFullPageTabs[t] == s.tabs.armedFullPageTabs[t])
          || !s'.tabs.armedFullPageTabs[t].inFlight)
    && (forall q | q in s.sliceRequests :: q in s'.sliceRequests && s'.sliceRequests[q] == s.sliceRequests[q])
  }

  lemma LeavingKeepsFlights(s: State, s': State)
    requires FlightsHeld(s) && LeavesSlices(s, s')
    ensures FlightsHeld(s')
  {
    forall t | t in s'.tabs.armedFullPageTabs && s'.tabs.armedFullPageTabs[t].inFlight
      ensures CaptureRuns(s'.sliceRequests, t, s'.tabs.armedFullPageTabs[t].armGeneration)
    {
      var q :| q in s.sliceRequests && IsCapturing(s.sliceRequests[q], t, s.tabs.armedFullPageTabs[t].armGeneration);
      assert IsCapturing(s'.sliceRequests[q], t, s'.tabs.armedFullPageTabs[t].armGeneration);
    }
  }

  lemma OthersLeaveSlices(rules: Rules, s: State, e: Event)
    requires Enabled(s, e) && !e.EvSliceActiveTab? && !e.EvSliceShot?
    ensures LeavesSlices(s, Step(rules, s, e))
  {
    if Resumes(e).Some? {
      ResumeFrame(rules, s, e);
    } else if e.EvStart? {
      StartFrame(s, e.r, e.mode, e.tab, e.uuid);
    } else if e.EvArmActiveTab? {
      ArmingFrame(rules, s, e.r, e.active, e.now);
    } else if e.EvCancel? {
      CancelFrame(s.tabs);
    }
  }

  lemma SliceActiveTabKeepsFlights(rules: Rules, s: State, q: nat, reply: Option<BrowserTab>, now: int, later: int)
    requires FlightsHeld(s) && q in s.sliceRequests && s.sliceRequests[q].pc.SliceAwaitActiveTab?
    ensures FlightsHeld(SliceActiveTab(rules, s, q, reply, now, later))
  {
    var s' := SliceActiveTab(rules, s, q, reply, now, later);
    forall t | t in s'.tabs.armedFullPageTabs && s'.tabs.armedFullPageTabs[t].inFlight
      ensures CaptureRuns(s'.sliceRequests, t, s'.tabs.armedFullPageTabs[t].armGeneration)
    {
      var generation := s'.tabs.armedFullPageTabs[t].armGeneration;
      if s.tabs.armedFullPageTabs[t].inFlight {
        var q0 :| q0 in s.sliceRequests && IsCapturing(s.sliceRequests[q0], t, generation);
        assert IsCapturing(s'.sliceRequests[q0], t, generation);
      } else {
        assert IsCapturing(s'.sliceRequests[q], t, generation);
      }
    }
  }

  lemma SliceShotKeepsFlights(s: State, q: nat, image: bool, now: int, later: int)
    requires FlightsHeld(s) && q in s.sliceRequests && s.sliceRequests[q].pc.SliceAwaitImage?
    ensures FlightsHeld(SliceShot(s, q, image, now, later))
  {
    var s' := SliceShot(s, q, image, now, later);
    forall t | t in s'.tabs.armedFullPageTabs && s'.tabs.armedFullPageTabs[t].inFlight
      ensures CaptureRuns(s'.sliceRequests, t, s'.tabs.armedFullPageTabs[t].armGeneration)
    {
      var generation := s'.tabs.armedFullPageTabs[t].armGeneration;
      var q0 :| q0 in s.sliceRequests && IsCapturing(s.sliceRequests[q0], t, generation);
      assert IsCapturing(s'.sliceRequests[q0], t, generation);
    }
  }

  lemma FlightsStep(rules: Rules, s: State, e: Event)
    requires FlightsHeld(s) && Enabled(s, e)
    ensures FlightsHeld(Step(rules, s, e))
  {
    if e.EvSliceActiveTab? {
      SliceActiveTabKeepsFlights(rules, s, e.q, e.active, e.now, e.later);
    } else if e.EvSliceShot? {
      SliceShotKeepsFlights(s, e.q, e.image, e.now, e.later);
    } else {
      OthersLeaveSlices(rules, s, e);
      LeavingKeepsFlights(s, Step(rules, s, e));
    }
  }

  lemma {:induction false} FlightsAlways(rules: Rules, t: Trace, i: nat)
    requires IsTrace(rules, t) && i < |t.states|
    ensures FlightsHeld(t.states[i])
  {
    if i > 0 {
      FlightsAlways(rules, t, i - 1);
      FlightsStep(rules, t.states[i - 1], t.events[i - 1]);
    }
  }

  // ---- Slices ----

  /** The sender is the active tab, at a page that may be captured. */
  predicate OnActiveTab(rules: Rules, sender: BrowserTab, active: BrowserTab, hotspot: bool) {
    && sender.id.Some? && sender.id == active.id && sender.windowId.Some?
    && sender.url.Some? && sender.url == active.url
    && if hotspot then rules.isHttps(sender.url.value) else rules.detect(sender.url.value).supported
  }

  /** The slice and its tab still show the page of the arm message. */
  predicate ShowsPage(rules: Rules, page: Page, message: SliceMessage, sender: BrowserTab) {
    && message.context == page.context && message.url == page.url && message.viewport == page.viewport
    && sender.url == Some(page.url)
    && (page.context.pageVersion == HOTSPOT_VERSION
        || (rules.detect(page.url).platform == Some(page.context.platform)
            && rules.detect(page.url).pageVersion == page.context.pageVersion))
  }

  /** The first slice is taken where the page was armed, and none above the one before. */
  predicate ScrollsOn(arm: ArmRecord, taken: seq<Slice>, scrollY: real) {
    if taken == [] then scrollY == arm.scrollY else taken[|taken| - 1].scrollY <= scrollY
  }

  /** The arm of the tab: what its message said, and what has been captured since. */
  predicate ArmOf(s: State, tab: int, arm: ArmRecord, id: string, taken: seq<Slice>) {
    && tab in s.tabs.armedFullPageTabs && s.tabs.armedFullPageTabs[tab].captureSessionId == id
    && id in s.history.arms && arm == s.history.arms[id] && taken == SlicesOf(s.history.slices, id)
  }

  /** The slice that is due on this arm, of its page, on its active tab, in time and after the others. */
  ghost predicate IsDue(
      rules: Rules, s: State, request: SliceRequest, arm: ArmRecord, id: string, taken: seq<Slice>,
      active: BrowserTab, now: int, later: int) {
    var message := request.message;
    && OnActiveTab(rules, request.tab, active, arm.page.context.pageVersion == HOTSPOT_VERSION)
    && message.captureSessionId == id && message.sequence == |taken|
    && ShowsPage(rules, arm.page, message, request.tab) && ScrollsOn(arm, taken, message.scrollY)
    && now < arm.expiresAt
    && !CaptureRuns(s.sliceRequests, arm.tab, arm.generation)
    && (taken != [] ==> taken[|taken| - 1].recordedAt + 500 <= later)
  }

  /** The request ends the arm: another tab is active, time is up, or the page is not the armed one any more. */
  predicate EndsArm(
      rules: Rules, request: SliceRequest, arm: ArmRecord, id: string, taken: seq<Slice>, active: BrowserTab,
      now: int) {
    var message := request.message;
    || !OnActiveTab(rules, request.tab, active, arm.page.context.pageVersion == HOTSPOT_VERSION)
    || arm.expiresAt <= now
    || (message.captureSessionId == id && message.sequence == |taken|
        && !(ShowsPage(rules, arm.page, message, request.tab) && ScrollsOn(arm, taken, message.scrollY)))
  }

  lemma ActiveTabIs(rules: Rules, sender: BrowserTab, active: BrowserTab, version: string)
    ensures IsCaptureTab(rules, sender, active, Some(version)) <==>
            OnActiveTab(rules, sender, active, version == HOTSPOT_VERSION)
  {
  }

  lemma EntryIs(s: State, tab: int, arm: ArmRecord, id: string, taken: seq<Slice>)
    requires Inv(s) && FlightsHeld(s) && ArmOf(s, tab, arm, id, taken)
    ensures var entry := s.tabs.armedFullPageTabs[tab];
            && EntryOk(entry, arm, taken) && arm.tab == tab && arm.generation == entry.armGeneration
            && (entry.inFlight <==> CaptureRuns(s.sliceRequests, tab, arm.generation))
  {
    var entry := s.tabs.armedFullPageTabs[tab];
    if q :| q in s.sliceRequests && IsCapturing(s.sliceRequests[q], tab, entry.armGeneration) {
      assert RequestOk(s.tabs.armedFullPageTabs, s.history, s.sliceRequests[q], s.clock);
    }
  }

  lemma PageMatches(
      rules: Rules, entry: FullEntry, arm: ArmRecord, taken: seq<Slice>, message: SliceMessage, sender: BrowserTab)
    requires EntryOk(entry, arm, taken) && message.sequence == |taken|
    ensures SliceMatches(rules, entry, message, sender) <==>
            ShowsPage(rules, arm.page, message, sender) && ScrollsOn(arm, taken, message.scrollY)
  {
  }

  lemma SliceJudged(
      rules: Rules, s: State, request: SliceRequest, arm: ArmRecord, id: string, taken: seq<Slice>,
      active: BrowserTab, now: int, later: int)
    requires Inv(s) && FlightsHeld(s) && request.tab.id.Some? && ArmOf(s, request.tab.id.value, arm, id, taken)
    ensures var verdict := JudgeSlice(rules, s.tabs, request, active, now, later);
            && (verdict.Accept? <==> IsDue(rules, s, request, arm, id, taken, active, now, later))
            && (verdict.RefuseAndDrop? <==> EndsArm(rules, request, arm, id, taken, active, now))
  {
    var entry := s.tabs.armedFullPageTabs[request.tab.id.value];
    EntryIs(s, request.tab.id.value, arm, id, taken);
    ActiveTabIs(rules, request.tab, active, arm.page.context.pageVersion);
    if request.message.sequence == |taken| { PageMatches(rules, entry, arm, taken, request.message, request.tab); }
  }

  /**
   What becomes of a slice request on a tab with an armed session. Its capture begins if and only if it is
   the slice due: of the armed session and page, on its own active tab, next in number, not scrolled back, in
   time, with no capture running and 500 ms after the last one. The arm ends if and only if another tab is
   active, time is up, or a slice next in number shows another page or is scrolled back; every other refusal
   keeps it.
   */
  lemma SliceDecided(rules: Rules, t: Trace, i: nat, arm: ArmRecord, id: string, taken: seq<Slice>)
    requires IsTrace(rules, t) && i < |t.events| && t.events[i].EvSliceActiveTab? && t.events[i].active.Some?
    requires var request := t.states[i].sliceRequests[t.events[i].q];
             request.tab.id.Some? && ArmOf(t.states[i], request.tab.id.value, arm, id, taken)
    ensures var s, s', e := t.states[i], t.states[i + 1], t.events[i];
            var request := s.sliceRequests[e.q];
            && (s'.sliceRequests[e.q].pc.SliceAwaitImage? <==>
                IsDue(rules, s, request, arm, id, taken, e.active.value, e.now, e.later))
            && (request.tab.id.value !in s'.tabs.armedFullPageTabs <==>
                EndsArm(rules, request, arm, id, taken, e.active.value, e.now))
  {
    var s, e := t.states[i], t.events[i];
    Invariant(rules, t, i);
    FlightsAlways(rules, t, i);
    SliceJudged(rules, s, s.sliceRequests[e.q], arm, id, taken, e.active.value, e.now, e.later);
  }

  /** Without an armed session on its tab, or an answer about the active tab, no slice is captured. */
  lemma UnarmedSliceRefused(rules: Rules, t: Trace, i: nat)
    requires IsTrace(rules, t) && i < |t.events| && t.events[i].EvSliceActiveTab?
    requires var s, e := t.states[i], t.events[i];
             var tab := s.sliceRequests[e.q].tab.id;
             e.active.None? || tab.None? || tab.value !in s.tabs.armedFullPageTabs
    ensures t.states[i + 1].sliceRequests[t.events[i].q].pc == SliceRefused
    ensures t.events[i].active.None? ==> t.states[i + 1].tabs == t.states[i].tabs
  {
  }

  /**
   The end of a capture. It is answered with its image if and only if its arm is still there, the browser
   took the image and the time is not up; a capture that fails or comes too late ends the arm. An answered
   slice is recorded as it was asked for.
   */
  lemma ImageDecided(rules: Rules, t: Trace, i: nat)
    requires IsTrace(rules, t) && i < |t.events| && t.events[i].EvSliceShot?
    ensures var s, s', e := t.states[i], t.states[i + 1], t.events[i];
            var request := s.sliceRequests[e.q];
            && request.tab.id.Some? && request.message.captureSessionId in s.history.arms
            && var message, tab := request.message, request.tab.id.value;
               var arm, stands := s.history.arms[message.captureSessionId],
                   IsArmed(s.tabs, tab, request.pc.armGeneration);
               && (s'.sliceRequests[e.q].pc.SliceImage? <==> stands && e.image && e.now < arm.expiresAt)
               && (stands && !s'.sliceRequests[e.q].pc.SliceImage? ==> tab !in s'.tabs.armedFullPageTabs)
               && s'.history.slices == s.history.slices + (
                    if s'.sliceRequests[e.q].pc.SliceImage? then
                      [Slice(message.captureSessionId, message.sequence,
                             Page(message.context, message.url, message.viewport), request.tab, message.scrollY,
                             request.pc.startedAt, e.now, e.later)]
                    else [])
  {
    var s, e := t.states[i], t.events[i];
    Invariant(rules, t, i);
    assert RequestOk(s.tabs.armedFullPageTabs, s.history, s.sliceRequests[e.q], s.clock);
  }

  /** In every state a capture that awaits its image is of the page, and on the tab, of its arm message. */
  lemma CapturesShowArmedPage(rules: Rules, t: Trace, i: nat, q: nat)
    requires IsTrace(rules, t) && i < |t.states|
    requires q in t.states[i].sliceRequests && t.states[i].sliceRequests[q].pc.SliceAwaitImage?
    ensures var s := t.states[i]; var request := s.sliceRequests[q]; var message := request.message;
            && message.captureSessionId in s.history.arms
            && var arm := s.history.arms[message.captureSessionId];
               && request.tab.id == Some(arm.tab) && request.tab.url == Some(arm.page.url)
               && message.context == arm.page.context && message.url == arm.page.url
               && message.viewport == arm.page.viewport
  {
    Invariant(rules, t, i);
    var s := t.states[i];
    assert RequestOk(s.tabs.armedFullPageTabs, s.history, s.sliceRequests[q], s.clock);
  }

  // ---- Arms ----

  /** The page detected at this URL is the one the arm names. */
  predicate Detects(rules: Rules, url: string, context: Context) {
    rules.detect(url).platform == Some(context.platform) && rules.detect(url).pageVersion == context.pageVersion
  }

  /** The active tab lets the arm in: a safe arm of a hotspot page anywhere, any other arm on the detected page. */
  predicate Admits(rules: Rules, arm: ArmMessage, active: BrowserTab) {
    var hotspot := arm.context.pageVersion == HOTSPOT_VERSION;
    && active.id == Some(arm.tab) && OnActiveTab(rules, active, active, hotspot)
    && (arm.FullArm? ==> active.url == Some(arm.url))
    && ((arm.SafeArm? && hotspot) || Detects(rules, active.url.value, arm.context))
  }

  lemma MatchesIfAdmitted(rules: Rules, arm: ArmMessage, active: BrowserTab)
    ensures ArmMatchesActiveTab(rules, arm, active) <==> Admits(rules, arm, active)
  {
    ActiveTabIs(rules, active, active, arm.context.pageVersion);
  }

  /** What an installed arm puts on its tab. */
  predicate IsInstalled(s: State, arm: ArmMessage, url: string, now: int) {
    match arm
    case SafeArm(tab, generation, context) =>
      && tab in s.tabs.armedTabs && s.tabs.armedTabs[tab] == SafeEntry(generation, now + 30_000, context, url)
      && tab !in s.tabs.armedFullPageTabs
    case FullArm(tab, generation, context, id, _, viewport, scrollY) =>
      && tab in s.tabs.armedFullPageTabs && tab !in s.tabs.armedTabs
      && s.tabs.armedFullPageTabs[tab] == FullEntry(
           generation, now + 20_000, id, context, url, viewport, 0, scrollY, None, false)
      && id in s.history.arms
      && s.history.arms[id] == ArmRecord(tab, generation, Page(context, url, viewport), scrollY, now + 20_000)
  }

  /**
   The answer about the active tab. The arm is installed, with the lifetime of its kind and without the other
   kind, if and only if it is the latest of its tab and the active tab lets it in; otherwise nothing changes.
   */
  lemma ArmDecided(rules: Rules, s: State, e: Event)
    requires Enabled(s, e) && e.EvArmActiveTab?
    ensures var s', arm := Step(rules, s, e), s.runs[e.r].pc.arm;
            if Lookup(s.tabs.latestArmGenerations, arm.tab) == Some(arm.generation)
               && e.active.Some? && Admits(rules, arm, e.active.value)
            then
              && s'.runs[e.r].pc == AwaitArmReply(Replied(true))
              && IsInstalled(s', arm, e.active.value.url.value, e.now)
              && s'.history.installs == s.history.installs + [Install(arm.tab, arm.generation)]
            else
              && s'.runs[e.r].pc == AwaitArmReply(if e.active.None? then Rejected else Replied(false))
              && s'.tabs == s.tabs && s'.history == s.history
  {
    if e.active.Some? { MatchesIfAdmitted(rules, s.runs[e.r].pc.arm, e.active.value); }
  }

  /** This event of the trace installs this arm under this URL. */
  ghost predicate InstalledAt(rules: Rules, t: Trace, j: nat, arm: ArmMessage, url: string, now: int)
    requires IsTrace(rules, t)
  {
    && j < |t.events| && t.events[j].EvArmActiveTab? && t.events[j].now == now
    && arm == t.states[j].runs[t.events[j].r].pc.arm
    && t.events[j].active.Some? && Admits(rules, arm, t.events[j].active.value)
    && t.events[j].active.value.url == Some(url)
  }

  lemma OnlyArmsRecord(rules: Rules, s: State, e: Event)
    requires Enabled(s, e) && !e.EvArmActiveTab?
    ensures Step(rules, s, e).history.arms == s.history.arms
  {
    if Resumes(e).Some? { ResumeFrame(rules, s, e); }
  }

  lemma ArmRecorded(rules: Rules, s: State, e: Event, id: string)
    requires Inv(s) && Enabled(s, e) && e.EvArmActiveTab? && id in Step(rules, s, e).history.arms
    ensures var record, arm := Step(rules, s, e).history.arms[id], s.runs[e.r].pc.arm;
            || (id in s.history.arms && record == s.history.arms[id])
            || (arm.FullArm? && arm.captureSessionId == id && e.active.Some? && Admits(rules, arm, e.active.value)
                && record == ArmRecord(arm.tab, arm.generation, Page(arm.context, arm.url, arm.viewport), arm.scrollY,
                                       e.now + 20_000))
  {
    ArmDecided(rules, s, e);
    assert RunOk(s.tabs, s.history.ids, s.runs[e.r]);
  }

  function RecordOf(arm: ArmMessage, now: int): ArmRecord
    requires arm.FullArm?
  {
    ArmRecord(arm.tab, arm.generation, Page(arm.context, arm.url, arm.viewport), arm.scrollY, now + 20_000)
  }

  /** A record is the one of the state before, or the last event installed it. */
  lemma RecordedLast(rules: Rules, t: Trace, i: nat, id: string)
    requires IsTrace(rules, t) && 0 < i < |t.states| && id in t.states[i].history.arms
    ensures || (id in t.states[i - 1].history.arms && t.states[i].history.arms[id] == t.states[i - 1].history.arms[id])
            || (t.events[i - 1].EvArmActiveTab?
                && var arm := t.states[i - 1].runs[t.events[i - 1].r].pc.arm;
                   arm.FullArm? && arm.captureSessionId == id
                   && t.states[i].history.arms[id] == RecordOf(arm, t.events[i - 1].now)
                   && InstalledAt(rules, t, i - 1, arm, arm.url, t.events[i - 1].now))
  {
    var s, e := t.states[i - 1], t.events[i - 1];
    Invariant(rules, t, i - 1);
    if e.EvArmActiveTab? { ArmRecorded(rules, s, e, id); } else { OnlyArmsRecord(rules, s, e); }
  }

  /** Every recorded full-page arm is what some arm message said, let in by the active tab at its URL. */
  lemma {:induction false} ArmsComeFromMessages(rules: Rules, t: Trace, i: nat, id: string)
    returns (j: nat, arm: ArmMessage, now: int)
    requires IsTrace(rules, t) && i < |t.states| && id in t.states[i].history.arms
    ensures j < i && arm.FullArm? && arm.captureSessionId == id && InstalledAt(rules, t, j, arm, arm.url, now)
    ensures t.states[i].history.arms[id] == RecordOf(arm, now)
  {
    NothingAtFirst(rules, t);
    RecordedLast(rules, t, i, id);
    if id in t.states[i - 1].history.arms && t.states[i].history.arms[id] == t.states[i - 1].history.arms[id] {
      j, arm, now := ArmsComeFromMessages(rules, t, i - 1, id);
    } else {
      j, arm, now := i - 1, t.states[i - 1].runs[t.events[i - 1].r].pc.arm, t.events[i - 1].now;
    }
  }

  lemma NothingAtFirst(rules: Rules, t: Trace)
    requires IsTrace(rules, t)
    ensures t.states[0].history.arms == map[] && t.states[0].tabs.armedTabs == map[]
  {
  }

  lemma SafeEntryStep(rules: Rules, s: State, e: Event, tab: int)
    requires Inv(s) && Enabled(s, e) && tab in Step(rules, s, e).tabs.armedTabs
    ensures var entry := Step(rules, s, e).tabs.armedTabs[tab];
            || (tab in s.tabs.armedTabs && entry == s.tabs.armedTabs[tab])
            || (e.EvArmActiveTab? && e.active.Some?
                && var arm := s.runs[e.r].pc.arm;
                   arm.SafeArm? && arm.tab == tab && Admits(rules, arm, e.active.value)
                   && entry == SafeEntry(arm.generation, e.now + 30_000, arm.context, e.active.value.url.value))
  {
    if e.EvArmActiveTab? { ArmDecided(rules, s, e); } else { OthersInstallNothing(rules, s, e); }
  }

  /** The event lets a safe arm of the tab in, which becomes this entry. */
  ghost predicate SafeArmAt(rules: Rules, t: Trace, j: nat, tab: int, entry: SafeEntry)
    requires IsTrace(rules, t)
  {
    && j < |t.events| && t.events[j].EvArmActiveTab?
    && var arm := t.states[j].runs[t.events[j].r].pc.arm;
       && arm.SafeArm? && arm.tab == tab
       && InstalledAt(rules, t, j, arm, entry.url, t.events[j].now)
       && entry == SafeEntry(arm.generation, t.events[j].now + 30_000, arm.context, entry.url)
  }

  lemma SafeEntryLast(rules: Rules, t: Trace, i: nat, tab: int)
    requires IsTrace(rules, t) && 0 < i < |t.states| && tab in t.states[i].tabs.armedTabs
    ensures var entry := t.states[i].tabs.armedTabs[tab];
            || (tab in t.states[i - 1].tabs.armedTabs && entry == t.states[i - 1].tabs.armedTabs[tab])
            || SafeArmAt(rules, t, i - 1, tab, entry)
  {
    Invariant(rules, t, i - 1);
    SafeEntryStep(rules, t.states[i - 1], t.events[i - 1], tab);
  }

  /** Every safe arm on a tab is what some arm message said, under the URL of the active tab that let it in. */
  lemma {:induction false} SafeArmsComeFromMessages(rules: Rules, t: Trace, i: nat, tab: int) returns (j: nat)
    requires IsTrace(rules, t) && i < |t.states| && tab in t.states[i].tabs.armedTabs
    ensures j < i && SafeArmAt(rules, t, j, tab, t.states[i].tabs.armedTabs[tab])
  {
    NothingAtFirst(rules, t);
    SafeEntryLast(rules, t, i, tab);
    if SafeArmAt(rules, t, i - 1, tab, t.states[i].tabs.armedTabs[tab]) {
      j := i - 1;
    } else {
      j := SafeArmsComeFromMessages(rules, t, i - 1, tab);
    }
  }

  // ---- Visible-tab captures ----

  /** The safe arm on the tab is unexpired and names the page that the request and the active tab show. */
  predicate AllowsShot(rules: Rules, entry: SafeEntry, request: ShotRequest, active: BrowserTab, now: int) {
    var hotspot := entry.context.pageVersion == HOTSPOT_VERSION;
    && OnActiveTab(rules, request.tab, active, hotspot) && now < entry.expiresAt
    && request.pageSignature == entry.context.pageSignature && request.tab.url == Some(entry.url)
    && (hotspot || Detects(rules, entry.url, entry.context))
  }

  /** A visible-tab capture begins if and only if the safe arm on its tab allows it; either way the arm is spent. */
  lemma ShotDecided(rules: Rules, s: State, e: Event)
    requires Enabled(s, e) && e.EvShotActiveTab? && e.active.Some? && s.shotRequests[e.q].tab.id.Some?
    ensures var s', request := Step(rules, s, e), s.shotRequests[e.q];
            var tab := request.tab.id.value;
            && (s'.shotRequests[e.q].pc == ShotAwaitImage <==>
                tab in s.tabs.armedTabs && AllowsShot(rules, s.tabs.armedTabs[tab], request, e.active.value, e.now))
            && (s'.shotRequests[e.q].pc == ShotAwaitImage || s'.shotRequests[e.q].pc == ShotRefused)
            && tab !in s'.tabs.armedTabs
  {
    var tab := s.shotRequests[e.q].tab.id.value;
    if tab in s.tabs.armedTabs {
      ActiveTabIs(rules, s.shotRequests[e.q].tab, e.active.value, s.tabs.armedTabs[tab].context.pageVersion);
    }
  }

  /**
   A capture of the visible tab that is granted names the page signature of the message that armed the tab, is
   sent from the URL at which that arm was let in, and comes less than 30 seconds after it.
   */
  lemma GrantedShots(rules: Rules, t: Trace, i: nat) returns (j: nat, arm: ArmMessage, url: string, now: int)
    requires IsTrace(rules, t) && i < |t.events| && t.events[i].EvShotActiveTab?
    requires t.states[i + 1].shotRequests[t.events[i].q].pc == ShotAwaitImage
    ensures j < i && arm.SafeArm? && InstalledAt(rules, t, j, arm, url, now)
    ensures var request := t.states[i].shotRequests[t.events[i].q];
            && request.tab.id == Some(arm.tab) && request.tab.url == Some(url)
            && request.pageSignature == arm.context.pageSignature && t.events[i].now < now + 30_000
            && t.states[i + 1].history.shots == t.states[i].history.shots + [Install(arm.tab, arm.generation)]
  {
    ShotDecided(rules, t.states[i], t.events[i]);
    var tab := t.states[i].shotRequests[t.events[i].q].tab.id.value;
    j := SafeArmsComeFromMessages(rules, t, i, tab);
    arm, url := t.states[j].runs[t.events[j].r].pc.arm, t.states[i].tabs.armedTabs[tab].url;
    now := t.events[j].now;
  }

  /**
   An image of a slice shows the page of the arm message that let its session in: the event that answered it,
   the message, and the bounds of its time.
   */
  lemma ImagesShowArmedPage(rules: Rules, t: Trace, i: nat) returns (j: nat, arm: ArmMessage, now: int)
    requires IsTrace(rules, t) && i < |t.events| && t.events[i].EvSliceShot?
    requires t.states[i + 1].sliceRequests[t.events[i].q].pc == SliceImage
    ensures j < i && arm.FullArm? && InstalledAt(rules, t, j, arm, arm.url, now)
    ensures var request := t.states[i].sliceRequests[t.events[i].q]; var message := request.message;
            && message.captureSessionId == arm.captureSessionId
            && request.tab.id == Some(arm.tab) && request.tab.url == Some(arm.url)
            && message.context == arm.context && message.url == arm.url && message.viewport == arm.viewport
            && t.events[i].now < now + 20_000
  {
    var q := t.events[i].q;
    CapturesShowArmedPage(rules, t, i, q);
    ImageDecided(rules, t, i);
    j, arm, now := ArmsComeFromMessages(rules, t, i, t.states[i].sliceRequests[q].message.captureSessionId);
  }
}

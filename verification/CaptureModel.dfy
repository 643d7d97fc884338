/**
 The capture coordinator wired to the background message handler
 (apps/extension/src/background.ts), as a transition system.

 JavaScript runs one piece of code at a time and can switch only at an `await`, so
 the code between two awaits is one atomic step. Every call in flight is a record with a
 program counter naming the await at which it is suspended; an event resumes one
 of them with an arbitrary answer of the browser, or delivers a new message.
 */
module CaptureModel {
  import opened Wrappers

  // ---- What the browser and the page supply ----

  datatype BrowserTab = BrowserTab(id: Option<int>, windowId: Option<int>, url: Option<string>)

  datatype SupportedTab = SupportedTab(id: int, windowId: int, url: string)

  datatype Viewport = Viewport(width: int, height: int, devicePixelRatio: real)

  datatype Context = Context(platform: string, pageVersion: string, pageSignature: string)

  datatype Detected = Detected(supported: bool, platform: Option<string>, pageVersion: string)

  /** An empty string stands for any falsy context field of the page's answer. */
  datatype PageStatus = PageStatus(
    supported: bool, context: Context, viewport: Option<Viewport>, scrollY: Option<real>, url: Option<string>)

  datatype ArmMessage =
    | SafeArm(tab: int, generation: nat, context: Context)
    | FullArm(tab: int, generation: nat, context: Context,
              captureSessionId: string, url: string, viewport: Viewport, scrollY: real)

  datatype SliceMessage = SliceMessage(
    captureSessionId: string, sequence: nat, context: Context, url: string, viewport: Viewport, scrollY: real)

  /** The functions of modules that are not part of this model, as parameters. */
  datatype Rules = Rules(
    detect: string -> Detected,
    isHttps: string -> bool,
    parsesArm: ArmMessage -> bool)

  const HOTSPOT_VERSION := "hotspot-public-page-v1"
  const ARM_LIFETIME_MS := 30_000
  const FULL_PAGE_LIFETIME_MS := 20_000
  const MINIMUM_SLICE_INTERVAL_MS := 500
  /** The parser of runtime messages rejects a slice sequence of 30 or more. */
  const SEQUENCE_LIMIT := 30

  // ---- State ----

  datatype Mode = FullPage | Visible | Region

  datatype Session = Session(captureSessionId: string, generation: nat)

  datatype StartError =
    | CaptureReplaced | InactiveOrUnsupportedTab | ContextMismatch | NotArmed | StartFailed | BrowserFailure

  datatype Answer = Rejected | Replied(ok: bool)

  /** Where a `startCapture` call is suspended, or how it ended. */
  datatype StartPc =
    | AwaitPreviousDiscard
    | AwaitStatus
    | AwaitActiveTab(arm: ArmMessage)
    | AwaitArmReply(answer: Answer)
    | AwaitContent
    | AwaitDiscard(error: StartError)
    | Returned
    | Threw(error: StartError)

  datatype Run = Run(tab: SupportedTab, generation: nat, session: Option<Session>, pc: StartPc)

  /**
   `armGeneration` is the identity of the armed object: the generation of the message that
   installed it. InstallsIncrease shows that no two objects of a tab share it.
   */
  datatype SafeEntry = SafeEntry(armGeneration: nat, expiresAt: int, context: Context, url: string)

  datatype FullEntry = FullEntry(
    armGeneration: nat, expiresAt: int, captureSessionId: string, context: Context, url: string,
    viewport: Viewport, nextSequence: nat, lastScrollY: real, lastCaptureAt: Option<int>, inFlight: bool)

  datatype SlicePc =
    | SliceAwaitActiveTab
    | SliceAwaitImage(armGeneration: nat, startedAt: int)
    | SliceImage
    | SliceRefused

  datatype SliceRequest = SliceRequest(tab: BrowserTab, message: SliceMessage, pc: SlicePc)

  datatype ShotPc = ShotAwaitActiveTab | ShotAwaitImage | ShotImage | ShotRefused

  datatype ShotRequest = ShotRequest(tab: BrowserTab, pageSignature: string, pc: ShotPc)

  /** One arm put into `armedTabs` or `armedFullPageTabs`. */
  datatype Install = Install(tab: int, generation: nat)

  /** What a full-page arm and a slice say about their page. */
  datatype Page = Page(context: Context, url: string, viewport: Viewport)

  /** The immutable part of an installed full-page arm. */
  datatype ArmRecord = ArmRecord(tab: int, generation: nat, page: Page, scrollY: real, expiresAt: int)

  /** One slice answered with an image: what was asked for, and when it was requested, checked and recorded. */
  datatype Slice = Slice(
    captureSessionId: string, sequence: nat, page: Page, sender: BrowserTab, scrollY: real,
    startedAt: int, checkedAt: int, recordedAt: int)

  /** The maps of the two closures: two of the coordinator, three of the message handler. */
  datatype Tabs = Tabs(
    generations: map<int, nat>,
    fullPageSessions: map<int, Session>,
    armedTabs: map<int, SafeEntry>,
    armedFullPageTabs: map<int, FullEntry>,
    latestArmGenerations: map<int, nat>)

  /**
   What has happened: the session `ids` issued, the full-page `arms` and all `installs` in order,
   the `slices` answered with an image, and the arms spent on a visible-tab `shots`.
   */
  datatype History = History(
    ids: set<string>,
    arms: map<string, ArmRecord>,
    installs: seq<Install>,
    slices: seq<Slice>,
    shots: seq<Install>)

  /** The maps, the calls in flight or finished, the history and the last clock reading. */
  datatype State = State(
    tabs: Tabs,
    runs: map<nat, Run>,
    sliceRequests: map<nat, SliceRequest>,
    shotRequests: map<nat, ShotRequest>,
    history: History,
    clock: int)

  function Initial(clock: int): State {
    State(Tabs(map[], map[], map[], map[], map[]), map[], map[], map[], History({}, map[], [], [], []), clock)
  }

  // ---- Predicates of the source ----

  predicate IsSupportedTab(rules: Rules, tab: SupportedTab) {
    tab.id >= 0 && tab.windowId >= 0 && rules.detect(tab.url).supported
  }

  predicate IsPublicHttpsTab(rules: Rules, tab: BrowserTab) {
    tab.id.Some? && tab.windowId.Some? && tab.url.Some? && rules.isHttps(tab.url.value)
  }

  predicate IsActiveSupportedTab(rules: Rules, candidate: BrowserTab, active: BrowserTab) {
    && candidate.id.Some? && candidate.id == active.id
    && candidate.windowId.Some?
    && candidate.url.Some? && candidate.url == active.url
    && rules.detect(candidate.url.value).supported
  }

  predicate IsCaptureTab(rules: Rules, candidate: BrowserTab, active: BrowserTab, pageVersion: Option<string>) {
    if pageVersion == Some(HOTSPOT_VERSION) then
      IsPublicHttpsTab(rules, candidate) && candidate.id == active.id && candidate.url == active.url
    else
      IsActiveSupportedTab(rules, candidate, active)
  }

  /** The page context found on a tab agrees with the one a message or an arm names. */
  predicate DetectedAs(rules: Rules, url: string, context: Context) {
    var detected := rules.detect(url);
    detected.platform == Some(context.platform) && detected.pageVersion == context.pageVersion
  }

  /** The checks made on the active tab before an arm is installed. */
  predicate ArmMatchesActiveTab(rules: Rules, arm: ArmMessage, active: BrowserTab) {
    && active.id == Some(arm.tab)
    && IsCaptureTab(rules, active, active, Some(arm.context.pageVersion))
    && active.url.Some?
    && match arm {
       case SafeArm(_, _, context) =>
         context.pageVersion == HOTSPOT_VERSION || DetectedAs(rules, active.url.value, context)
       case FullArm(_, _, context, _, url, _, _) =>
         DetectedAs(rules, active.url.value, context) && active.url.value == url
       }
  }

  /** The checks made on a slice against the armed full-page session (lines 517-527). */
  predicate SliceMatches(rules: Rules, armed: FullEntry, message: SliceMessage, tab: BrowserTab) {
    && armed.context == message.context
    && armed.url == message.url
    && tab.url == Some(message.url)
    && armed.viewport == message.viewport
    && armed.lastScrollY <= message.scrollY
    && (message.sequence == 0 ==> message.scrollY == armed.lastScrollY)
    && (armed.context.pageVersion == HOTSPOT_VERSION || DetectedAs(rules, tab.url.value, armed.context))
  }

  /** The checks made on a visible-tab capture against its arm (lines 645-653). */
  predicate ShotMatches(rules: Rules, armed: SafeEntry, pageSignature: string, tab: BrowserTab) {
    && tab.url == Some(armed.url)
    && armed.context.pageSignature == pageSignature
    && (armed.context.pageVersion == HOTSPOT_VERSION || DetectedAs(rules, tab.url.value, armed.context))
  }

  predicate IsCurrent(tabs: Tabs, tab: int, generation: nat) {
    Lookup(tabs.generations, tab) == Some(generation)
  }

  predicate IsRecorded(tabs: Tabs, run: Run) {
    run.session.Some? && Lookup(tabs.fullPageSessions, run.tab.id) == run.session
  }

  predicate InFlight(run: Run) {
    !run.pc.Returned? && !run.pc.Threw?
  }

  // ---- Synchronous pieces shared by several steps ----

  /** `finishCapture` of the coordinator. */
  function FinishCapture(tabs: Tabs, tab: int, id: string): Tabs {
    if tab in tabs.fullPageSessions && tabs.fullPageSessions[tab].captureSessionId == id
    then tabs.(fullPageSessions := tabs.fullPageSessions - {tab})
    else tabs
  }

  /** The END_FULL_PAGE_CAPTURE branch of the handler. */
  function EndFullPage(tabs: Tabs, tab: int, id: string): Tabs {
    if tab in tabs.armedFullPageTabs && tabs.armedFullPageTabs[tab].captureSessionId == id
    then FinishCapture(tabs.(armedFullPageTabs := tabs.armedFullPageTabs - {tab}), tab, id)
    else tabs
  }

  /** `discardFullPage` up to its await. */
  function DiscardFullPage(tabs: Tabs, tab: int, session: Session): Tabs {
    var forgotten :=
      if Lookup(tabs.fullPageSessions, tab) == Some(session)
      then tabs.(fullPageSessions := tabs.fullPageSessions - {tab})
      else tabs;
    EndFullPage(forgotten, tab, session.captureSessionId)
  }

  function SetPc(s: State, r: nat, pc: StartPc): State
    requires r in s.runs
  {
    s.(runs := s.runs[r := s.runs[r].(pc := pc)])
  }

  /** `if (session) await discardFullPage(...); throw error` */
  function Fail(s: State, r: nat, error: StartError): State
    requires r in s.runs
  {
    var run := s.runs[r];
    if run.session.Some?
    then SetPc(s, r, AwaitDiscard(error)).(tabs := DiscardFullPage(s.tabs, run.tab.id, run.session.value))
    else SetPc(s, r, Threw(error))
  }

  /** The catch blocks: discard only a session that is still recorded, then rethrow. */
  function FailIfRecorded(s: State, r: nat, error: StartError): State
    requires r in s.runs
  {
    if IsRecorded(s.tabs, s.runs[r]) then Fail(s, r, error) else SetPc(s, r, Threw(error))
  }

  // ---- The steps of startCapture ----

  /** `nextGeneration` and the bookkeeping of the new session. */
  function EnterCapture(tabs: Tabs, tab: int, generation: nat, session: Option<Session>): Tabs {
    tabs.(
      generations := tabs.generations[tab := generation],
      fullPageSessions :=
        if session.Some? then tabs.fullPageSessions[tab := session.value] else tabs.fullPageSessions - {tab})
  }

  function NextGeneration(tabs: Tabs, tab: int): nat {
    (if tab in tabs.generations then tabs.generations[tab] else 0) + 1
  }

  /** Up to the first await: a previous session of the tab is discarded at once. */
  function EnterTab(tabs: Tabs, tab: int, session: Option<Session>): Tabs {
    var entered := EnterCapture(tabs, tab, NextGeneration(tabs, tab), session);
    if tab in tabs.fullPageSessions then DiscardFullPage(entered, tab, tabs.fullPageSessions[tab]) else entered
  }

  function StartCapture(s: State, r: nat, mode: Mode, tab: SupportedTab, uuid: string): State {
    var generation := NextGeneration(s.tabs, tab.id);
    var session := if mode.FullPage? then Some(Session(uuid, generation)) else None;
    var pc := if tab.id in s.tabs.fullPageSessions then AwaitPreviousDiscard else AwaitStatus;
    s.(tabs := EnterTab(s.tabs, tab.id, session),
       runs := s.runs[r := Run(tab, generation, session, pc)],
       history := if session.Some? then s.history.(ids := s.history.ids + {uuid}) else s.history)
  }

  function PreviousDiscarded(s: State, r: nat): State
    requires r in s.runs
  {
    if IsCurrent(s.tabs, s.runs[r].tab.id, s.runs[r].generation)
    then SetPc(s, r, AwaitStatus)
    else Fail(s, r, CaptureReplaced)
  }

  function ArmMessageOf(run: Run, status: PageStatus): ArmMessage
    requires run.session.Some? ==> status.viewport.Some? && status.scrollY.Some?
  {
    match run.session
    case Some(session) => FullArm(run.tab.id, run.generation, status.context, session.captureSessionId,
                                  run.tab.url, status.viewport.value, status.scrollY.value)
    case None => SafeArm(run.tab.id, run.generation, status.context)
  }

  /** The arm branches of the handler up to `queryActiveTab`. */
  function ReceiveArm(rules: Rules, s: State, r: nat, arm: ArmMessage): State
    requires r in s.runs
  {
    var latest := if arm.tab in s.tabs.latestArmGenerations then s.tabs.latestArmGenerations[arm.tab] else 0;
    if !rules.parsesArm(arm) || arm.generation < latest then
      SetPc(s, r, AwaitArmReply(Replied(false)))
    else
      SetPc(s, r, AwaitActiveTab(arm)).(
        tabs := s.tabs.(latestArmGenerations := s.tabs.latestArmGenerations[arm.tab := arm.generation]))
  }

  function StatusReply(rules: Rules, s: State, r: nat, reply: Option<PageStatus>): State
    requires r in s.runs
  {
    var run := s.runs[r];
    match reply
    case None => FailIfRecorded(s, r, BrowserFailure)
    case Some(status) =>
      if !IsCurrent(s.tabs, run.tab.id, run.generation) then Fail(s, r, CaptureReplaced)
      else if !status.supported || status.context.platform == "" || status.context.pageVersion == "" ||
              status.context.pageSignature == "" then
        Fail(s, r, InactiveOrUnsupportedTab)
      else if run.session.Some? &&
              (status.viewport.None? || status.scrollY.None? || status.url != Some(run.tab.url)) then
        Fail(s, r, ContextMismatch)
      else
        ReceiveArm(rules, s, r, ArmMessageOf(run, status))
  }

  /** What an accepted arm puts into the maps, and what it removes from the other map. */
  function InstallArm(tabs: Tabs, arm: ArmMessage, url: string, now: int): Tabs {
    match arm
    case SafeArm(tab, generation, context) =>
      tabs.(armedTabs := tabs.armedTabs[tab := SafeEntry(generation, now + ARM_LIFETIME_MS, context, url)],
            armedFullPageTabs := tabs.armedFullPageTabs - {tab})
    case FullArm(tab, generation, context, id, armUrl, viewport, scrollY) =>
      tabs.(armedFullPageTabs := tabs.armedFullPageTabs[tab := FullEntry(
              generation, now + FULL_PAGE_LIFETIME_MS, id, context, armUrl, viewport, 0, scrollY, None, false)],
            armedTabs := tabs.armedTabs - {tab})
  }

  function RecordArm(history: History, arm: ArmMessage, now: int): History {
    history.(
      installs := history.installs + [Install(arm.tab, arm.generation)],
      arms := if arm.SafeArm? then history.arms
              else history.arms[arm.captureSessionId :=
                ArmRecord(arm.tab, arm.generation, Page(arm.context, arm.url, arm.viewport), arm.scrollY,
                          now + FULL_PAGE_LIFETIME_MS)])
  }

  /** The arm branches of the handler after `queryActiveTab`. */
  function ArmActiveTab(rules: Rules, s: State, r: nat, reply: Option<BrowserTab>, now: int): State
    requires r in s.runs && s.runs[r].pc.AwaitActiveTab?
  {
    var arm := s.runs[r].pc.arm;
    match reply
    case None => SetPc(s, r, AwaitArmReply(Rejected))
    case Some(active) =>
      if Lookup(s.tabs.latestArmGenerations, arm.tab) != Some(arm.generation) ||
         !ArmMatchesActiveTab(rules, arm, active) then
        SetPc(s, r, AwaitArmReply(Replied(false)))
      else
        SetPc(s, r, AwaitArmReply(Replied(true))).(
          tabs := InstallArm(s.tabs, arm, active.url.value, now),
          history := RecordArm(s.history, arm, now))
  }

  function ArmReply(s: State, r: nat): State
    requires r in s.runs && s.runs[r].pc.AwaitArmReply?
  {
    var run := s.runs[r];
    match run.pc.answer
    case Rejected => FailIfRecorded(s, r, BrowserFailure)
    case Replied(ok) =>
      if !IsCurrent(s.tabs, run.tab.id, run.generation) then Fail(s, r, CaptureReplaced)
      else if !ok then Fail(s, r, NotArmed)
      else SetPc(s, r, AwaitContent)
  }

  function ContentReply(s: State, r: nat, answer: Answer): State
    requires r in s.runs
  {
    var run := s.runs[r];
    match answer
    case Rejected => FailIfRecorded(s, r, BrowserFailure)
    case Replied(ok) =>
      if !IsCurrent(s.tabs, run.tab.id, run.generation) then Fail(s, r, CaptureReplaced)
      else if !ok then Fail(s, r, StartFailed)
      else SetPc(s, r, Returned)
  }

  predicate SameSession(tabs: Tabs, tab: int)
    requires tab in tabs.armedFullPageTabs
  {
    && tab in tabs.fullPageSessions
    && tabs.fullPageSessions[tab].captureSessionId == tabs.armedFullPageTabs[tab].captureSessionId
  }

  /** `cancel`: every generation advances, every recorded session is forgotten and ended. */
  function CancelAll(tabs: Tabs): Tabs {
    tabs.(
      generations := map tab | tab in tabs.generations :: tabs.generations[tab] + 1,
      fullPageSessions := map[],
      armedFullPageTabs :=
        map tab | tab in tabs.armedFullPageTabs && !SameSession(tabs, tab) :: tabs.armedFullPageTabs[tab])
  }

  // ---- The steps of a slice request ----

  function SetSlicePc(s: State, q: nat, pc: SlicePc): State
    requires q in s.sliceRequests
  {
    s.(sliceRequests := s.sliceRequests[q := s.sliceRequests[q].(pc := pc)])
  }

  function DropFullArm(tabs: Tabs, tab: int): Tabs {
    tabs.(armedFullPageTabs := tabs.armedFullPageTabs - {tab})
  }

  function ArmedVersion(tabs: Tabs, tab: int): Option<string> {
    if tab in tabs.armedFullPageTabs then Some(tabs.armedFullPageTabs[tab].context.pageVersion)
    else if tab in tabs.armedTabs then Some(tabs.armedTabs[tab].context.pageVersion)
    else None
  }

  /** What the checks of a slice request decide. */
  datatype SliceVerdict = Refuse | RefuseAndDrop | Accept

  function JudgeSlice(rules: Rules, tabs: Tabs, request: SliceRequest, active: BrowserTab, now: int, later: int)
    : SliceVerdict
    requires request.tab.id.Some?
  {
    var tab := request.tab.id.value;
    var message := request.message;
    if !IsCaptureTab(rules, request.tab, active, ArmedVersion(tabs, tab)) then RefuseAndDrop
    else if tab !in tabs.armedFullPageTabs || tabs.armedFullPageTabs[tab].expiresAt <= now then RefuseAndDrop
    else
      var armed := tabs.armedFullPageTabs[tab];
      if armed.captureSessionId != message.captureSessionId then Refuse
      else if armed.nextSequence != message.sequence then Refuse
      else if !SliceMatches(rules, armed, message, request.tab) then RefuseAndDrop
      else if armed.inFlight then Refuse
      else if armed.lastCaptureAt.Some? && later - armed.lastCaptureAt.value < MINIMUM_SLICE_INTERVAL_MS then Refuse
      else Accept
  }

  /** CAPTURE_FULL_PAGE_SLICE after `queryActiveTab`, up to `captureVisibleTab`. */
  function SliceActiveTab(rules: Rules, s: State, q: nat, reply: Option<BrowserTab>, now: int, later: int): State
    requires q in s.sliceRequests
  {
    var request := s.sliceRequests[q];
    if reply.None? || request.tab.id.None? then SetSlicePc(s, q, SliceRefused)
    else
      var tab := request.tab.id.value;
      match JudgeSlice(rules, s.tabs, request, reply.value, now, later)
      case Refuse => SetSlicePc(s, q, SliceRefused)
      case RefuseAndDrop => SetSlicePc(s, q, SliceRefused).(tabs := DropFullArm(s.tabs, tab))
      case Accept =>
        var armed := s.tabs.armedFullPageTabs[tab];
        SetSlicePc(s, q, SliceAwaitImage(armed.armGeneration, later)).(
          tabs := s.tabs.(armedFullPageTabs := s.tabs.armedFullPageTabs[tab := armed.(inFlight := true)]))
  }

  /** The armed object of this generation is still in the map. */
  predicate IsArmed(tabs: Tabs, tab: int, armGeneration: nat) {
    tab in tabs.armedFullPageTabs && tabs.armedFullPageTabs[tab].armGeneration == armGeneration
  }

  function PageOf(message: SliceMessage): Page {
    Page(message.context, message.url, message.viewport)
  }

  /** CAPTURE_FULL_PAGE_SLICE after `captureVisibleTab`. */
  function SliceShot(s: State, q: nat, image: bool, now: int, later: int): State
    requires q in s.sliceRequests && s.sliceRequests[q].pc.SliceAwaitImage?
  {
    var request := s.sliceRequests[q];
    if request.tab.id.None? || !IsArmed(s.tabs, request.tab.id.value, request.pc.armGeneration) then
      SetSlicePc(s, q, SliceRefused)
    else
      var tab := request.tab.id.value;
      var armed := s.tabs.armedFullPageTabs[tab];
      var message := request.message;
      if !image || armed.expiresAt <= now then
        SetSlicePc(s, q, SliceRefused).(tabs := DropFullArm(s.tabs, tab))
      else
        SetSlicePc(s, q, SliceImage).(
          tabs := s.tabs.(armedFullPageTabs := s.tabs.armedFullPageTabs[tab := armed.(
            inFlight := false, nextSequence := armed.nextSequence + 1,
            lastScrollY := message.scrollY, lastCaptureAt := Some(later))]),
          history := s.history.(slices := s.history.slices + [
            Slice(armed.captureSessionId, message.sequence, PageOf(message), request.tab, message.scrollY,
                  request.pc.startedAt, now, later)]))
  }

  // ---- The steps of a visible-tab request ----

  function SetShotPc(s: State, q: nat, pc: ShotPc): State
    requires q in s.shotRequests
  {
    s.(shotRequests := s.shotRequests[q := s.shotRequests[q].(pc := pc)])
  }

  /** CAPTURE_VISIBLE_TAB after `queryActiveTab`, up to `captureVisibleTab`. */
  function ShotActiveTab(rules: Rules, s: State, q: nat, reply: Option<BrowserTab>, now: int): State
    requires q in s.shotRequests
  {
    var request := s.shotRequests[q];
    if reply.None? || request.tab.id.None? || request.tab.id.value !in s.tabs.armedTabs then
      SetShotPc(s, q, ShotRefused)
    else
      var tab := request.tab.id.value;
      var armed := s.tabs.armedTabs[tab];
      var tabs := s.tabs.(armedTabs := s.tabs.armedTabs - {tab});
      if !IsCaptureTab(rules, request.tab, reply.value, Some(armed.context.pageVersion)) || armed.expiresAt <= now ||
         !ShotMatches(rules, armed, request.pageSignature, request.tab) then
        SetShotPc(s, q, ShotRefused).(tabs := tabs)
      else
        SetShotPc(s, q, ShotAwaitImage).(
          tabs := tabs,
          history := s.history.(shots := s.history.shots + [Install(tab, armed.armGeneration)]))
  }

  // ---- Events ----

  datatype Event =
    | EvStart(r: nat, mode: Mode, tab: SupportedTab, allowHotspot: bool, uuid: string)
    | EvPreviousDiscarded(r: nat)
    | EvStatus(r: nat, status: Option<PageStatus>)
    | EvArmActiveTab(r: nat, active: Option<BrowserTab>, now: int)
    | EvArmReply(r: nat)
    | EvContent(r: nat, answer: Answer)
    | EvDiscarded(r: nat)
    | EvCancel
    | EvEnd(senderId: int, captureSessionId: string)
    | EvSlice(q: nat, sender: BrowserTab, message: SliceMessage)
    | EvSliceActiveTab(q: nat, active: Option<BrowserTab>, now: int, later: int)
    | EvSliceShot(q: nat, image: bool, now: int, later: int)
    | EvShot(q: nat, sender: BrowserTab, pageSignature: string)
    | EvShotActiveTab(q: nat, active: Option<BrowserTab>, now: int)
    | EvShotImage(q: nat, image: bool)

  /**
   Which events can happen: a suspended call resumes only from its own await, a new call has a
   new name, `crypto.randomUUID` never repeats, and the clock does not go back.
   */
  predicate Enabled(s: State, e: Event) {
    match e
    case EvStart(r, mode, tab, _, uuid) => r !in s.runs && uuid !in s.history.ids
    case EvPreviousDiscarded(r) => r in s.runs && s.runs[r].pc.AwaitPreviousDiscard?
    case EvStatus(r, _) => r in s.runs && s.runs[r].pc.AwaitStatus?
    case EvArmActiveTab(r, _, now) => r in s.runs && s.runs[r].pc.AwaitActiveTab? && s.clock <= now
    case EvArmReply(r) => r in s.runs && s.runs[r].pc.AwaitArmReply?
    case EvContent(r, _) => r in s.runs && s.runs[r].pc.AwaitContent?
    case EvDiscarded(r) => r in s.runs && s.runs[r].pc.AwaitDiscard?
    case EvCancel => true
    case EvEnd(_, _) => true
    case EvSlice(q, _, message) => q !in s.sliceRequests && message.sequence < SEQUENCE_LIMIT
    case EvSliceActiveTab(q, _, now, later) =>
      q in s.sliceRequests && s.sliceRequests[q].pc.SliceAwaitActiveTab? && s.clock <= now <= later
    case EvSliceShot(q, _, now, later) =>
      q in s.sliceRequests && s.sliceRequests[q].pc.SliceAwaitImage? && s.clock <= now <= later
    case EvShot(q, _, _) => q !in s.shotRequests
    case EvShotActiveTab(q, _, now) =>
      q in s.shotRequests && s.shotRequests[q].pc.ShotAwaitActiveTab? && s.clock <= now
    case EvShotImage(q, _) => q in s.shotRequests && s.shotRequests[q].pc.ShotAwaitImage?
  }

  function Step(rules: Rules, s: State, e: Event): State
    requires Enabled(s, e)
  {
    match e
    case EvStart(r, mode, tab, allowHotspot, uuid) =>
      if !IsSupportedTab(rules, tab) && !(allowHotspot && rules.isHttps(tab.url)) then s
      else StartCapture(s, r, mode, tab, uuid)
    case EvPreviousDiscarded(r) => PreviousDiscarded(s, r)
    case EvStatus(r, status) => StatusReply(rules, s, r, status)
    case EvArmActiveTab(r, active, now) => ArmActiveTab(rules, s, r, active, now).(clock := now)
    case EvArmReply(r) => ArmReply(s, r)
    case EvContent(r, answer) => ContentReply(s, r, answer)
    case EvDiscarded(r) => SetPc(s, r, Threw(s.runs[r].pc.error))
    case EvCancel => s.(tabs := CancelAll(s.tabs))
    case EvEnd(senderId, id) => s.(tabs := EndFullPage(s.tabs, senderId, id))
    case EvSlice(q, sender, message) =>
      s.(sliceRequests := s.sliceRequests[q := SliceRequest(sender, message, SliceAwaitActiveTab)])
    case EvSliceActiveTab(q, active, now, later) => SliceActiveTab(rules, s, q, active, now, later).(clock := later)
    case EvSliceShot(q, image, now, later) => SliceShot(s, q, image, now, later).(clock := later)
    case EvShot(q, sender, pageSignature) =>
      s.(shotRequests := s.shotRequests[q := ShotRequest(sender, pageSignature, ShotAwaitActiveTab)])
    case EvShotActiveTab(q, active, now) => ShotActiveTab(rules, s, q, active, now).(clock := now)
    case EvShotImage(q, image) => SetShotPc(s, q, if image then ShotImage else ShotRefused)
  }

  /** A finite run of the system from a fresh background page. */
  datatype Trace = Trace(states: seq<State>, events: seq<Event>)

  ghost predicate IsTrace(rules: Rules, t: Trace) {
    && |t.states| == |t.events| + 1
    && t.states[0] == Initial(t.states[0].clock)
    && forall i | 0 <= i < |t.events| ::
         Enabled(t.states[i], t.events[i]) && t.states[i + 1] == Step(rules, t.states[i], t.events[i])
  }
}

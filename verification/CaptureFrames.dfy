/** What each step of a `startCapture` call leaves alone, and how the call advances. */
module CaptureFrames {
  import opened Wrappers
  import opened CaptureModel
  import opened CaptureGenerations

  /** How many more steps a call can make, at most. */
  function Rank(pc: StartPc): nat {
    match pc
    case AwaitPreviousDiscard => 6
    case AwaitStatus => 5
    case AwaitActiveTab(_) => 4
    case AwaitArmReply(_) => 3
    case AwaitContent => 2
    case AwaitDiscard(_) => 1
    case _ => 0
  }

  /** Call `r` moves forward; other calls, requests, generations and the history stay. */
  ghost predicate CallStep(s: State, s': State, r: nat)
    requires r in s.runs
  {
    && r in s'.runs && s'.runs == s.runs[r := s.runs[r].(pc := s'.runs[r].pc)]
    && Rank(s'.runs[r].pc) < Rank(s.runs[r].pc)
    && s'.tabs.generations == s.tabs.generations
    && s'.history == s.history && s'.sliceRequests == s.sliceRequests && s'.shotRequests == s.shotRequests
    && (forall t | t in s'.tabs.fullPageSessions :: t in s.tabs.fullPageSessions)
    && ArmsNarrow(s.tabs, s'.tabs) && SubMap(s.tabs.armedFullPageTabs, s'.tabs.armedFullPageTabs)
  }

  lemma FailFrame(s: State, r: nat, error: StartError)
    requires r in s.runs && Rank(s.runs[r].pc) > 1
    ensures CallStep(s, Fail(s, r, error), r) && CallStep(s, FailIfRecorded(s, r, error), r)
  {
    if s.runs[r].session.Some? {
      DiscardNarrows(s.tabs, s.runs[r].tab.id, s.runs[r].session.value);
      DiscardDrops(s.tabs, s.runs[r].tab.id, s.runs[r].session.value);
    }
  }

  lemma SetPcFrame(s: State, r: nat, pc: StartPc)
    requires r in s.runs && Rank(pc) < Rank(s.runs[r].pc)
    ensures CallStep(s, SetPc(s, r, pc), r)
  {
  }

  lemma ReceiveArmFrame(rules: Rules, s: State, r: nat, arm: ArmMessage)
    requires r in s.runs && s.runs[r].pc.AwaitStatus?
    ensures CallStep(s, ReceiveArm(rules, s, r, arm), r)
  {
  }

  lemma StatusFrame(rules: Rules, s: State, r: nat, reply: Option<PageStatus>)
    requires r in s.runs && s.runs[r].pc.AwaitStatus?
    ensures CallStep(s, StatusReply(rules, s, r, reply), r)
  {
    FailFrame(s, r, BrowserFailure);
    FailFrame(s, r, CaptureReplaced);
    FailFrame(s, r, InactiveOrUnsupportedTab);
    FailFrame(s, r, ContextMismatch);
    if reply.Some? && (s.runs[r].session.Some? ==> reply.value.viewport.Some? && reply.value.scrollY.Some?) {
      ReceiveArmFrame(rules, s, r, ArmMessageOf(s.runs[r], reply.value));
    }
  }

  lemma ReplyFrame(s: State, r: nat, answer: Answer)
    requires r in s.runs && (s.runs[r].pc.AwaitArmReply? || s.runs[r].pc.AwaitContent?)
    ensures s.runs[r].pc.AwaitArmReply? ==> CallStep(s, ArmReply(s, r), r)
    ensures CallStep(s, ContentReply(s, r, answer), r)
  {
    FailFrame(s, r, BrowserFailure);
    FailFrame(s, r, CaptureReplaced);
    FailFrame(s, r, NotArmed);
    FailFrame(s, r, StartFailed);
    SetPcFrame(s, r, Returned);
    if s.runs[r].pc.AwaitArmReply? { SetPcFrame(s, r, AwaitContent); }
  }

  /** The call an event resumes, if that step installs no arm. */
  function Resumes(e: Event): Option<nat> {
    match e
    case EvPreviousDiscarded(r) => Some(r)
    case EvStatus(r, _) => Some(r)
    case EvArmReply(r) => Some(r)
    case EvContent(r, _) => Some(r)
    case EvDiscarded(r) => Some(r)
    case _ => None
  }

  lemma ResumeFrame(rules: Rules, s: State, e: Event)
    requires Enabled(s, e) && Resumes(e).Some?
    ensures CallStep(s, Step(rules, s, e), Resumes(e).value)
  {
    match e
    case EvPreviousDiscarded(r) => FailFrame(s, r, CaptureReplaced); SetPcFrame(s, r, AwaitStatus);
    case EvStatus(r, status) => StatusFrame(rules, s, r, status);
    case EvArmReply(r) => ReplyFrame(s, r, Rejected);
    case EvContent(r, answer) => ReplyFrame(s, r, answer);
    case EvDiscarded(r) => SetPcFrame(s, r, Threw(s.runs[r].pc.error));
  }

  /** The reply to `queryActiveTab` installs at most the call's own arm and changes no other tab. */
  lemma ArmingFrame(rules: Rules, s: State, r: nat, reply: Option<BrowserTab>, now: int)
    requires r in s.runs && s.runs[r].pc.AwaitActiveTab?
    ensures var s', arm := ArmActiveTab(rules, s, r, reply, now), s.runs[r].pc.arm;
            && s'.tabs.fullPageSessions == s.tabs.fullPageSessions
            && s'.tabs.generations == s.tabs.generations
            && s'.sliceRequests == s.sliceRequests
            && (s'.history == s.history
                || s'.history.installs == s.history.installs + [Install(arm.tab, arm.generation)])
            && forall t | t in s'.tabs.armedFullPageTabs ::
                 || (t in s.tabs.armedFullPageTabs && s'.tabs.armedFullPageTabs[t] == s.tabs.armedFullPageTabs[t])
                 || (t == arm.tab && s'.tabs.armedFullPageTabs[t].armGeneration == arm.generation
                     && !s'.tabs.armedFullPageTabs[t].inFlight
                     && s'.history.installs != s.history.installs)
  {
  }

  lemma CancelFrame(tabs: Tabs)
    ensures ArmsNarrow(tabs, CancelAll(tabs))
    ensures SubMap(tabs.armedFullPageTabs, CancelAll(tabs).armedFullPageTabs)
  {
  }

  /** A start adds one call and forgets or ends only the previous session of its tab. */
  lemma StartFrame(s: State, r: nat, mode: Mode, tab: SupportedTab, uuid: string)
    requires r !in s.runs
    ensures var s' := StartCapture(s, r, mode, tab, uuid);
            && r in s'.runs && s'.runs == s.runs[r := s'.runs[r]]
            && s'.tabs.generations == s.tabs.generations[tab.id := s'.runs[r].generation]
            && (tab.id in s.tabs.generations ==> s.tabs.generations[tab.id] < s'.runs[r].generation)
            && s'.history.installs == s.history.installs
            && s'.sliceRequests == s.sliceRequests && s'.shotRequests == s.shotRequests
            && ArmsNarrow(s.tabs, s'.tabs) && SubMap(s.tabs.armedFullPageTabs, s'.tabs.armedFullPageTabs)
  {
    var run := StartCapture(s, r, mode, tab, uuid).runs[r];
    if tab.id in s.tabs.fullPageSessions {
      var entered := EnterCapture(s.tabs, tab.id, run.generation, run.session);
      DiscardNarrows(entered, tab.id, s.tabs.fullPageSessions[tab.id]);
      DiscardDrops(entered, tab.id, s.tabs.fullPageSessions[tab.id]);
    }
  }
}

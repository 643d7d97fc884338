/**
 Arm fencing: which arm messages are installed, in which order, and what a safe arm is spent on.
 */
module CaptureFencing {
  import opened Wrappers
  import opened CaptureModel
  import opened CaptureGenerations

  predicate ArmUndecided(run: Run) {
    run.pc.AwaitPreviousDiscard? || run.pc.AwaitStatus? || run.pc.AwaitActiveTab?
  }

  /** The generations installed on one tab strictly increase. */
  ghost predicate InstallsIncrease(installs: seq<Install>) {
    forall i, j | 0 <= i < j < |installs| && installs[i].tab == installs[j].tab ::
      installs[i].generation < installs[j].generation
  }

  ghost predicate InstallsFenced(installs: seq<Install>, latest: map<int, nat>) {
    forall x | x in installs :: x.tab in latest && x.generation <= latest[x.tab]
  }

  ghost predicate RunsUninstalled(installs: seq<Install>, runs: map<nat, Run>) {
    forall r | r in runs && ArmUndecided(runs[r]) :: Install(runs[r].tab.id, runs[r].generation) !in installs
  }

  ghost predicate ArmsInstalled(tabs: Tabs, history: History) {
    && (forall t | t in tabs.armedFullPageTabs ::
        Install(t, tabs.armedFullPageTabs[t].armGeneration) in history.installs)
    && (forall t | t in tabs.armedTabs ::
          && t !in tabs.armedFullPageTabs
          && Install(t, tabs.armedTabs[t].armGeneration) in history.installs
          && Install(t, tabs.armedTabs[t].armGeneration) !in history.shots)
    && (forall x | x in history.shots :: x in history.installs)
  }

  ghost predicate FencingOk(s: State) {
    && InstallsIncrease(s.history.installs)
    && InstallsFenced(s.history.installs, s.tabs.latestArmGenerations)
    && RunsUninstalled(s.history.installs, s.runs)
    && ArmsInstalled(s.tabs, s.history)
    && NoRepeats(s.history.shots)
  }

  // ---- Steps that install nothing ----

  lemma NarrowKeepsFencing(s: State, s': State)
    requires FencingOk(s) && s'.history.installs == s.history.installs && s'.history.shots == s.history.shots
    requires s'.runs == s.runs && ArmsNarrow(s.tabs, s'.tabs)
    requires s'.tabs.latestArmGenerations == s.tabs.latestArmGenerations
    ensures FencingOk(s')
  {
  }

  lemma SetPcKeepsFencing(s: State, r: nat, pc: StartPc)
    requires FencingOk(s) && r in s.runs
    requires pc.AwaitPreviousDiscard? || pc.AwaitStatus? || pc.AwaitActiveTab? ==> ArmUndecided(s.runs[r])
    ensures FencingOk(SetPc(s, r, pc))
  {
  }

  lemma FailKeepsFencing(s: State, r: nat, error: StartError)
    requires FencingOk(s) && r in s.runs
    ensures FencingOk(Fail(s, r, error))
    ensures FencingOk(FailIfRecorded(s, r, error))
  {
    SetPcKeepsFencing(s, r, Threw(error));
    if s.runs[r].session.Some? {
      SetPcKeepsFencing(s, r, AwaitDiscard(error));
      DiscardNarrows(s.tabs, s.runs[r].tab.id, s.runs[r].session.value);
      NarrowKeepsFencing(SetPc(s, r, AwaitDiscard(error)), Fail(s, r, error));
    }
  }

  lemma StartKeepsFencing(s: State, r: nat, mode: Mode, tab: SupportedTab, uuid: string)
    requires GenerationsOk(s) && FencingOk(s) && r !in s.runs
    ensures FencingOk(StartCapture(s, r, mode, tab, uuid))
  {
    var s' := StartCapture(s, r, mode, tab, uuid);
    var run := s'.runs[r];
    if tab.id in s.tabs.fullPageSessions {
      DiscardNarrows(EnterCapture(s.tabs, tab.id, run.generation, run.session), tab.id,
                     s.tabs.fullPageSessions[tab.id]);
    }
    forall r0 | r0 in s'.runs && ArmUndecided(s'.runs[r0])
      ensures Install(s'.runs[r0].tab.id, s'.runs[r0].generation) !in s.history.installs
    {
      if r0 != r { assert ArmUndecided(s.runs[r0]); }
    }
  }

  lemma ReceiveArmKeepsFencing(rules: Rules, s: State, r: nat, arm: ArmMessage)
    requires FencingOk(s) && r in s.runs && s.runs[r].pc.AwaitStatus?
    ensures FencingOk(ReceiveArm(rules, s, r, arm))
  {
  }

  lemma StatusKeepsFencing(rules: Rules, s: State, r: nat, reply: Option<PageStatus>)
    requires FencingOk(s) && r in s.runs && s.runs[r].pc.AwaitStatus?
    ensures FencingOk(StatusReply(rules, s, r, reply))
  {
    var run := s.runs[r];
    if reply.None? {
      FailKeepsFencing(s, r, BrowserFailure);
    } else if !IsCurrent(s.tabs, run.tab.id, run.generation) {
      FailKeepsFencing(s, r, CaptureReplaced);
    } else if run.session.Some? ==> reply.value.viewport.Some? && reply.value.scrollY.Some? {
      FailKeepsFencing(s, r, InactiveOrUnsupportedTab);
      FailKeepsFencing(s, r, ContextMismatch);
      ReceiveArmKeepsFencing(rules, s, r, ArmMessageOf(run, reply.value));
    } else {
      FailKeepsFencing(s, r, InactiveOrUnsupportedTab);
      FailKeepsFencing(s, r, ContextMismatch);
    }
  }

  lemma ArmReplyKeepsFencing(s: State, r: nat)
    requires FencingOk(s) && r in s.runs && s.runs[r].pc.AwaitArmReply?
    ensures FencingOk(ArmReply(s, r))
  {
    if s.runs[r].pc.answer.Rejected? {
      FailKeepsFencing(s, r, BrowserFailure);
    } else {
      FailKeepsFencing(s, r, CaptureReplaced);
      FailKeepsFencing(s, r, NotArmed);
      SetPcKeepsFencing(s, r, AwaitContent);
    }
  }

  lemma ContentReplyKeepsFencing(s: State, r: nat, answer: Answer)
    requires FencingOk(s) && r in s.runs
    ensures FencingOk(ContentReply(s, r, answer))
  {
    if answer.Rejected? {
      FailKeepsFencing(s, r, BrowserFailure);
    } else {
      FailKeepsFencing(s, r, CaptureReplaced);
      FailKeepsFencing(s, r, StartFailed);
      SetPcKeepsFencing(s, r, Returned);
    }
  }

  // ---- Steps that install or spend an arm ----

  /** An arm is installed only if it is the latest of its tab, so above every earlier install. */
  lemma InstallKeepsFencing(s: State, r: nat, url: string, now: int)
    requires GenerationsOk(s) && FencingOk(s) && r in s.runs && s.runs[r].pc.AwaitActiveTab?
    requires Lookup(s.tabs.latestArmGenerations, s.runs[r].pc.arm.tab) == Some(s.runs[r].pc.arm.generation)
    ensures FencingOk(SetPc(s, r, AwaitArmReply(Replied(true))).(
              tabs := InstallArm(s.tabs, s.runs[r].pc.arm, url, now),
              history := RecordArm(s.history, s.runs[r].pc.arm, now)))
  {
    var arm := s.runs[r].pc.arm;
    var s' := SetPc(s, r, AwaitArmReply(Replied(true))).(
      tabs := InstallArm(s.tabs, arm, url, now), history := RecordArm(s.history, arm, now));
    assert RunOk(s.tabs, s.history.ids, s.runs[r]);
    var x := Install(arm.tab, arm.generation);
    assert x !in s.history.installs && s'.history.installs == s.history.installs + [x];
    forall r0 | r0 in s'.runs && ArmUndecided(s'.runs[r0])
      ensures Install(s'.runs[r0].tab.id, s'.runs[r0].generation) !in s'.history.installs
    {
      assert Apart(s.runs[r0], s.runs[r]);
    }
    forall i, j | 0 <= i < j < |s'.history.installs| && s'.history.installs[i].tab == s'.history.installs[j].tab
      ensures s'.history.installs[i].generation < s'.history.installs[j].generation
    {
      if j == |s.history.installs| {
        assert s.history.installs[i] in s.history.installs && s.history.installs[i] != x;
      }
    }
  }

  lemma ArmActiveTabKeepsFencing(rules: Rules, s: State, r: nat, reply: Option<BrowserTab>, now: int)
    requires GenerationsOk(s) && FencingOk(s) && r in s.runs && s.runs[r].pc.AwaitActiveTab?
    ensures FencingOk(ArmActiveTab(rules, s, r, reply, now))
  {
    var arm := s.runs[r].pc.arm;
    if reply.Some? && Lookup(s.tabs.latestArmGenerations, arm.tab) == Some(arm.generation)
        && ArmMatchesActiveTab(rules, arm, reply.value) {
      InstallKeepsFencing(s, r, reply.value.url.value, now);
    } else {
      SetPcKeepsFencing(s, r, AwaitArmReply(Rejected));
      SetPcKeepsFencing(s, r, AwaitArmReply(Replied(false)));
    }
  }

  lemma ShotPcKeepsFencing(s: State, q: nat, pc: ShotPc)
    requires FencingOk(s) && q in s.shotRequests
    ensures FencingOk(SetShotPc(s, q, pc))
  {
  }

  lemma SpendingKeepsFencing(s: State, tab: int)
    requires FencingOk(s)
    ensures FencingOk(s.(tabs := s.tabs.(armedTabs := s.tabs.armedTabs - {tab})))
    ensures tab in s.tabs.armedTabs ==>
              FencingOk(s.(tabs := s.tabs.(armedTabs := s.tabs.armedTabs - {tab}),
                           history := s.history.(
                             shots := s.history.shots + [Install(tab, s.tabs.armedTabs[tab].armGeneration)])))
  {
  }

  /** A safe arm leaves the map before its one capture is requested. */
  lemma ShotKeepsFencing(rules: Rules, s: State, q: nat, reply: Option<BrowserTab>, now: int)
    requires FencingOk(s) && q in s.shotRequests
    ensures FencingOk(ShotActiveTab(rules, s, q, reply, now))
  {
    ShotPcKeepsFencing(s, q, ShotRefused);
    ShotPcKeepsFencing(s, q, ShotAwaitImage);
    if s.shotRequests[q].tab.id.Some? {
      SpendingKeepsFencing(SetShotPc(s, q, ShotRefused), s.shotRequests[q].tab.id.value);
      SpendingKeepsFencing(SetShotPc(s, q, ShotAwaitImage), s.shotRequests[q].tab.id.value);
    }
  }

  lemma RequestsInstallNothing(rules: Rules, s: State, e: Event)
    requires Enabled(s, e) && IsRequestEvent(e)
    ensures Step(rules, s, e).history.installs == s.history.installs
    ensures e.EvShotActiveTab? || Step(rules, s, e).history.shots == s.history.shots
  {
  }

  /** The steps of `startCapture` calls. */
  lemma CallsKeepFencing(rules: Rules, s: State, e: Event)
    requires GenerationsOk(s) && FencingOk(s) && Enabled(s, e)
    requires IsCallEvent(e)
    ensures FencingOk(Step(rules, s, e))
  {
    match e
    case EvStart(r, mode, tab, allowHotspot, uuid) => StartKeepsFencing(s, r, mode, tab, uuid);
    case EvPreviousDiscarded(r) => FailKeepsFencing(s, r, CaptureReplaced); SetPcKeepsFencing(s, r, AwaitStatus);
    case EvStatus(r, status) => StatusKeepsFencing(rules, s, r, status);
    case EvArmActiveTab(r, active, now) => ArmActiveTabKeepsFencing(rules, s, r, active, now);
    case EvArmReply(r) => ArmReplyKeepsFencing(s, r);
    case EvContent(r, answer) => ContentReplyKeepsFencing(s, r, answer);
    case EvDiscarded(r) => SetPcKeepsFencing(s, r, Threw(s.runs[r].pc.error));
  }

  lemma FencingStep(rules: Rules, s: State, e: Event)
    requires GenerationsOk(s) && FencingOk(s) && Enabled(s, e)
    ensures FencingOk(Step(rules, s, e))
  {
    if e.EvCancel? {
      NarrowKeepsFencing(s, Step(rules, s, e));
    } else if e.EvShotActiveTab? {
      ShotKeepsFencing(rules, s, e.q, e.active, e.now);
    } else if IsRequestEvent(e) {
      RequestsNarrow(rules, s, e);
      RequestsInstallNothing(rules, s, e);
      NarrowKeepsFencing(s, Step(rules, s, e));
    } else {
      CallsKeepFencing(rules, s, e);
    }
  }

  lemma FencingInitially(clock: int)
    ensures FencingOk(Initial(clock))
  {
  }
}

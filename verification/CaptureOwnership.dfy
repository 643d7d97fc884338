/**
 Who answers for an armed full-page session: the coordinator's record of its tab, or a superseded
 `startCapture` call that is about to discard it.
 */
module CaptureOwnership {
  import opened Wrappers
  import opened CaptureModel
  import opened CaptureGenerations

  /** The arm of this call has not been decided yet. */
  predicate BeforeArm(run: Run) {
    run.session.Some? && (run.pc.AwaitPreviousDiscard? || run.pc.AwaitStatus? || run.pc.AwaitActiveTab?)
  }

  predicate HasSession(run: Run, id: string) {
    run.session.Some? && run.session.value.captureSessionId == id
  }

  /** The session armed on `tab` is the one the coordinator has recorded for it. */
  predicate ArmIsRecorded(tabs: Tabs, tab: int)
    requires tab in tabs.armedFullPageTabs
  {
    SameSession(tabs, tab)
  }

  /** A superseded call whose arm has been accepted and whose next step discards its session. */
  predicate Owns(tabs: Tabs, run: Run, tab: int, id: string) {
    && run.tab.id == tab && HasSession(run, id)
    && run.pc == AwaitArmReply(Replied(true))
    && !IsCurrent(tabs, tab, run.generation)
  }

  predicate IsOwner(tabs: Tabs, run: Run) {
    run.session.Some? && Owns(tabs, run, run.tab.id, run.session.value.captureSessionId)
  }

  ghost predicate ArmIsOwned(tabs: Tabs, runs: map<nat, Run>, tab: int)
    requires tab in tabs.armedFullPageTabs
  {
    exists r :: r in runs && Owns(tabs, runs[r], tab, tabs.armedFullPageTabs[tab].captureSessionId)
  }

  predicate RunArmOk(tabs: Tabs, run: Run) {
    BeforeArm(run) && IsCurrent(tabs, run.tab.id, run.generation) ==> IsRecorded(tabs, run)
  }

  ghost predicate NotYetArmed(tabs: Tabs, run: Run) {
    BeforeArm(run) ==> forall t | t in tabs.armedFullPageTabs ::
        !HasSession(run, tabs.armedFullPageTabs[t].captureSessionId)
  }

  ghost predicate RunsArmOk(tabs: Tabs, runs: map<nat, Run>) {
    forall r | r in runs :: RunArmOk(tabs, runs[r]) && NotYetArmed(tabs, runs[r])
  }

  ghost predicate ArmsAccounted(tabs: Tabs, runs: map<nat, Run>) {
    forall t | t in tabs.armedFullPageTabs :: ArmIsRecorded(tabs, t) || ArmIsOwned(tabs, runs, t)
  }

  ghost predicate OwnershipOk(s: State) {
    RunsArmOk(s.tabs, s.runs) && ArmsAccounted(s.tabs, s.runs)
  }

  /** An owner other than `r` is still an owner after `r` has moved. */
  lemma OwnerStays(tabs: Tabs, tabs': Tabs, runs: map<nat, Run>, r: nat, run: Run, tab: int)
    requires tab in tabs.armedFullPageTabs && tab in tabs'.armedFullPageTabs
    requires tabs'.armedFullPageTabs[tab].captureSessionId == tabs.armedFullPageTabs[tab].captureSessionId
    requires tabs'.generations == tabs.generations
    requires ArmIsOwned(tabs, runs, tab)
    requires r in runs ==> !Owns(tabs, runs[r], tab, tabs.armedFullPageTabs[tab].captureSessionId)
    ensures ArmIsOwned(tabs', runs[r := run], tab)
  {
    var id := tabs.armedFullPageTabs[tab].captureSessionId;
    var o :| o in runs && Owns(tabs, runs[o], tab, id);
    assert Owns(tabs', runs[r := run][o], tab, id);
  }

  lemma FailKeepsOwnership(s: State, r: nat, error: StartError)
    requires GenerationsOk(s) && OwnershipOk(s) && r in s.runs && s.runs[r].session.Some?
    ensures OwnershipOk(Fail(s, r, error))
  {
    var run := s.runs[r];
    var session := run.session.value;
    var s' := Fail(s, r, error);
    DiscardNarrows(s.tabs, run.tab.id, session);
    forall r0 | r0 in s'.runs ensures RunArmOk(s'.tabs, s'.runs[r0]) && NotYetArmed(s'.tabs, s'.runs[r0]) {
      assert RunArmOk(s.tabs, s.runs[r0]) && NotYetArmed(s.tabs, s.runs[r0]);
      if r0 != r { assert Apart(s.runs[r0], run); }
    }
    forall t | t in s'.tabs.armedFullPageTabs ensures ArmIsRecorded(s'.tabs, t) || ArmIsOwned(s'.tabs, s'.runs, t) {
      if ArmIsRecorded(s.tabs, t) {
        assert ArmIsRecorded(s'.tabs, t);
      } else {
        OwnerStays(s.tabs, s'.tabs, s.runs, r, s'.runs[r], t);
      }
    }
  }

  lemma SetPcKeepsOwnership(s: State, r: nat, pc: StartPc)
    requires OwnershipOk(s) && r in s.runs
    requires pc.AwaitPreviousDiscard? || pc.AwaitStatus? || pc.AwaitActiveTab? ==>
             s.runs[r].session.None? || BeforeArm(s.runs[r])
    requires !IsOwner(s.tabs, s.runs[r])
    ensures OwnershipOk(SetPc(s, r, pc))
  {
    var s' := SetPc(s, r, pc);
    forall r0 | r0 in s'.runs ensures RunArmOk(s'.tabs, s'.runs[r0]) && NotYetArmed(s'.tabs, s'.runs[r0]) {
      assert RunArmOk(s.tabs, s.runs[r0]) && NotYetArmed(s.tabs, s.runs[r0]);
    }
    forall t | t in s'.tabs.armedFullPageTabs && !ArmIsRecorded(s.tabs, t) ensures ArmIsOwned(s'.tabs, s'.runs, t) {
      OwnerStays(s.tabs, s'.tabs, s.runs, r, s'.runs[r], t);
    }
  }

  lemma FailingKeepsOwnership(s: State, r: nat, error: StartError)
    requires GenerationsOk(s) && OwnershipOk(s) && r in s.runs
    ensures OwnershipOk(Fail(s, r, error))
    ensures !IsOwner(s.tabs, s.runs[r]) ==> OwnershipOk(FailIfRecorded(s, r, error))
  {
    if s.runs[r].session.Some? { FailKeepsOwnership(s, r, error); }
    if !IsOwner(s.tabs, s.runs[r]) { SetPcKeepsOwnership(s, r, Threw(error)); }
  }

  /** A start leaves the arms of other tabs to their records and owners, and drops its tab's recorded one. */
  lemma StartKeepsAccounts(s: State, r: nat, mode: Mode, tab: SupportedTab, uuid: string)
    requires GenerationsOk(s) && OwnershipOk(s) && r !in s.runs
    ensures var s' := StartCapture(s, r, mode, tab, uuid); ArmsAccounted(s'.tabs, s'.runs)
  {
    var s' := StartCapture(s, r, mode, tab, uuid);
    var run := s'.runs[r];
    if tab.id in s.tabs.fullPageSessions {
      DiscardNarrows(EnterCapture(s.tabs, tab.id, run.generation, run.session), tab.id,
                     s.tabs.fullPageSessions[tab.id]);
    }
    forall t | t in s'.tabs.armedFullPageTabs ensures ArmIsRecorded(s'.tabs, t) || ArmIsOwned(s'.tabs, s'.runs, t) {
      assert t in s.tabs.armedFullPageTabs;
      var id := s.tabs.armedFullPageTabs[t].captureSessionId;
      if !ArmIsRecorded(s.tabs, t) {
        var o :| o in s.runs && Owns(s.tabs, s.runs[o], t, id);
        assert RunOk(s.tabs, s.history.ids, s.runs[o]);
        assert Owns(s'.tabs, s'.runs[o], t, id);
      }
    }
  }

  lemma StartKeepsOwnership(s: State, r: nat, mode: Mode, tab: SupportedTab, uuid: string)
    requires GenerationsOk(s) && OwnershipOk(s) && r !in s.runs && uuid !in s.history.ids
    ensures OwnershipOk(StartCapture(s, r, mode, tab, uuid))
  {
    var s' := StartCapture(s, r, mode, tab, uuid);
    var run := s'.runs[r];
    var entered := EnterCapture(s.tabs, tab.id, run.generation, run.session);
    if tab.id in s.tabs.fullPageSessions {
      DiscardNarrows(entered, tab.id, s.tabs.fullPageSessions[tab.id]);
    }
    forall r0 | r0 in s'.runs ensures RunArmOk(s'.tabs, s'.runs[r0]) && NotYetArmed(s'.tabs, s'.runs[r0]) {
      if r0 != r {
        assert RunOk(s.tabs, s.history.ids, s.runs[r0]);
        assert RunArmOk(s.tabs, s.runs[r0]) && NotYetArmed(s.tabs, s.runs[r0]);
      }
    }
    StartKeepsAccounts(s, r, mode, tab, uuid);
  }

  lemma ReceiveArmKeepsOwnership(rules: Rules, s: State, r: nat, arm: ArmMessage)
    requires OwnershipOk(s) && r in s.runs && s.runs[r].pc.AwaitStatus?
    ensures OwnershipOk(ReceiveArm(rules, s, r, arm))
  {
    var s' := ReceiveArm(rules, s, r, arm);
    SetPcKeepsOwnership(s, r, s'.runs[r].pc);
    forall r0 | r0 in s'.runs ensures RunArmOk(s'.tabs, s'.runs[r0]) && NotYetArmed(s'.tabs, s'.runs[r0]) {
      assert RunArmOk(s.tabs, s.runs[r0]) && NotYetArmed(s.tabs, s.runs[r0]);
    }
    forall t | t in s'.tabs.armedFullPageTabs && !ArmIsRecorded(s.tabs, t) ensures ArmIsOwned(s'.tabs, s'.runs, t) {
      OwnerStays(s.tabs, s'.tabs, s.runs, r, s'.runs[r], t);
    }
  }

  lemma StatusKeepsOwnership(rules: Rules, s: State, r: nat, reply: Option<PageStatus>)
    requires GenerationsOk(s) && OwnershipOk(s) && r in s.runs && s.runs[r].pc.AwaitStatus?
    ensures OwnershipOk(StatusReply(rules, s, r, reply))
  {
    FailingKeepsOwnership(s, r, BrowserFailure);
    FailingKeepsOwnership(s, r, CaptureReplaced);
    FailingKeepsOwnership(s, r, InactiveOrUnsupportedTab);
    FailingKeepsOwnership(s, r, ContextMismatch);
    if reply.Some? && (s.runs[r].session.Some? ==> reply.value.viewport.Some? && reply.value.scrollY.Some?) {
      ReceiveArmKeepsOwnership(rules, s, r, ArmMessageOf(s.runs[r], reply.value));
    }
  }

  /** The decisive step: a late arm may be installed for a superseded call, which then owns it. */
  lemma InstallKeepsOwnership(s: State, r: nat, url: string, now: int)
    requires GenerationsOk(s) && OwnershipOk(s) && r in s.runs && s.runs[r].pc.AwaitActiveTab?
    ensures OwnershipOk(
              SetPc(s, r, AwaitArmReply(Replied(true))).(tabs := InstallArm(s.tabs, s.runs[r].pc.arm, url, now)))
  {
    var run := s.runs[r];
    var s' := SetPc(s, r, AwaitArmReply(Replied(true))).(tabs := InstallArm(s.tabs, run.pc.arm, url, now));
    assert RunOk(s.tabs, s.history.ids, run) && RunArmOk(s.tabs, run);
    forall r0 | r0 in s'.runs ensures RunArmOk(s'.tabs, s'.runs[r0]) && NotYetArmed(s'.tabs, s'.runs[r0]) {
      assert RunArmOk(s.tabs, s.runs[r0]) && NotYetArmed(s.tabs, s.runs[r0]);
      if r0 != r { assert Apart(s.runs[r0], run); }
    }
    forall t | t in s'.tabs.armedFullPageTabs ensures ArmIsRecorded(s'.tabs, t) || ArmIsOwned(s'.tabs, s'.runs, t) {
      if t == run.tab.id {
        assert IsRecorded(s.tabs, run) || Owns(s'.tabs, s'.runs[r], t, run.session.value.captureSessionId);
      } else if !ArmIsRecorded(s.tabs, t) {
        OwnerStays(s.tabs, s'.tabs, s.runs, r, s'.runs[r], t);
      }
    }
  }

  lemma ArmActiveTabKeepsOwnership(rules: Rules, s: State, r: nat, reply: Option<BrowserTab>, now: int)
    requires GenerationsOk(s) && OwnershipOk(s) && r in s.runs && s.runs[r].pc.AwaitActiveTab?
    ensures OwnershipOk(ArmActiveTab(rules, s, r, reply, now))
  {
    SetPcKeepsOwnership(s, r, AwaitArmReply(Rejected));
    SetPcKeepsOwnership(s, r, AwaitArmReply(Replied(false)));
    if reply.Some? && ArmMatchesActiveTab(rules, s.runs[r].pc.arm, reply.value) {
      InstallKeepsOwnership(s, r, reply.value.url.value, now);
    }
  }

  lemma ArmReplyKeepsOwnership(s: State, r: nat)
    requires GenerationsOk(s) && OwnershipOk(s) && r in s.runs && s.runs[r].pc.AwaitArmReply?
    ensures OwnershipOk(ArmReply(s, r))
  {
    FailingKeepsOwnership(s, r, BrowserFailure);
    FailingKeepsOwnership(s, r, CaptureReplaced);
    FailingKeepsOwnership(s, r, NotArmed);
    if !IsOwner(s.tabs, s.runs[r]) { SetPcKeepsOwnership(s, r, AwaitContent); }
  }

  lemma ContentReplyKeepsOwnership(s: State, r: nat, answer: Answer)
    requires GenerationsOk(s) && OwnershipOk(s) && r in s.runs && s.runs[r].pc.AwaitContent?
    ensures OwnershipOk(ContentReply(s, r, answer))
  {
    FailingKeepsOwnership(s, r, BrowserFailure);
    FailingKeepsOwnership(s, r, CaptureReplaced);
    FailingKeepsOwnership(s, r, StartFailed);
    SetPcKeepsOwnership(s, r, Returned);
  }

  lemma CancelKeepsOwnership(s: State)
    requires GenerationsOk(s) && OwnershipOk(s)
    ensures OwnershipOk(s.(tabs := CancelAll(s.tabs)))
  {
  }

  lemma RequestsKeepOwnership(rules: Rules, s: State, e: Event)
    requires OwnershipOk(s) && Enabled(s, e) && IsRequestEvent(e)
    ensures OwnershipOk(Step(rules, s, e))
  {
    var s' := Step(rules, s, e);
    RequestsNarrow(rules, s, e);
    forall r | r in s.runs ensures RunArmOk(s'.tabs, s.runs[r]) && NotYetArmed(s'.tabs, s.runs[r]) {
      assert RunArmOk(s.tabs, s.runs[r]) && NotYetArmed(s.tabs, s.runs[r]);
    }
    forall t | t in s'.tabs.armedFullPageTabs && !ArmIsRecorded(s.tabs, t) ensures ArmIsOwned(s'.tabs, s.runs, t) {
      var o :| o in s.runs && Owns(s.tabs, s.runs[o], t, s.tabs.armedFullPageTabs[t].captureSessionId);
      assert Owns(s'.tabs, s.runs[o], t, s.tabs.armedFullPageTabs[t].captureSessionId);
    }
  }

  lemma OwnershipStep(rules: Rules, s: State, e: Event)
    requires GenerationsOk(s) && OwnershipOk(s) && Enabled(s, e)
    ensures OwnershipOk(Step(rules, s, e))
  {
    match e
    case EvStart(r, mode, tab, allowHotspot, uuid) => StartKeepsOwnership(s, r, mode, tab, uuid);
    case EvPreviousDiscarded(r) =>
      SetPcKeepsOwnership(s, r, AwaitStatus);
      FailingKeepsOwnership(s, r, CaptureReplaced);
    case EvStatus(r, status) => StatusKeepsOwnership(rules, s, r, status);
    case EvArmActiveTab(r, active, now) => ArmActiveTabKeepsOwnership(rules, s, r, active, now);
    case EvArmReply(r) => ArmReplyKeepsOwnership(s, r);
    case EvContent(r, answer) => ContentReplyKeepsOwnership(s, r, answer);
    case EvDiscarded(r) => SetPcKeepsOwnership(s, r, Threw(s.runs[r].pc.error));
    case EvCancel => CancelKeepsOwnership(s);
    case _ => RequestsKeepOwnership(rules, s, e);
  }

  lemma OwnershipInitially(clock: int)
    ensures OwnershipOk(Initial(clock))
  {
  }
}

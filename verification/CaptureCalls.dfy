/**
 What a `startCapture` call does at each of its awaits, stated on its arguments and the answers it gets:
 when it is accepted and with which session, what it asks the page's handler to arm, when it returns,
 which error it throws otherwise, and that a failed call leaves nothing behind.
 */
module CaptureCalls {
  import opened Wrappers
  import opened CaptureModel
  import opened CaptureGenerations
  import opened CaptureOwnership
  import opened CaptureFencing
  import opened CaptureSlices
  import opened CaptureFrames
  import opened CaptureTheorems

  // ---- Starts ----

  predicate Acceptable(rules: Rules, tab: SupportedTab, allowHotspot: bool) {
    (tab.id >= 0 && tab.windowId >= 0 && rules.detect(tab.url).supported) || (allowHotspot && rules.isHttps(tab.url))
  }

  /** The session of the tab, if any, that was recorded or armed under this id is gone. */
  predicate IsGone(tabs: Tabs, tab: int, id: string) {
    && (tab in tabs.fullPageSessions ==> tabs.fullPageSessions[tab].captureSessionId != id)
    && (tab in tabs.armedFullPageTabs ==> tabs.armedFullPageTabs[tab].captureSessionId != id)
  }

  lemma PreviousGone(tabs: Tabs, tab: int, session: Option<Session>)
    requires tab in tabs.fullPageSessions
    requires session.Some? ==> session.value.captureSessionId != tabs.fullPageSessions[tab].captureSessionId
    ensures var entered, previous := EnterTab(tabs, tab, session), tabs.fullPageSessions[tab].captureSessionId;
            IsGone(entered, tab, previous) && Lookup(entered.fullPageSessions, tab) == session
  {
  }

  /**
   A start is accepted if and only if its tab is supported, or hotspots are allowed and the page is HTTPS. An
   accepted start counts the tab's generation up by one, has a session under the given id if and only if its
   mode is full-page, replaces the recorded session by it and ends the previous one, for which it waits.
   */
  lemma StartsAsAsked(rules: Rules, t: Trace, i: nat)
    requires IsTrace(rules, t) && i < |t.events| && t.events[i].EvStart?
    ensures var s, s', e := t.states[i], t.states[i + 1], t.events[i];
            if !Acceptable(rules, e.tab, e.allowHotspot) then s' == s
            else
              var generation := (if e.tab.id in s.tabs.generations then s.tabs.generations[e.tab.id] else 0) + 1;
              var session := if e.mode == FullPage then Some(Session(e.uuid, generation)) else None;
              var waits := e.tab.id in s.tabs.fullPageSessions;
              && s'.runs == s.runs[e.r :=
                   Run(e.tab, generation, session, if waits then AwaitPreviousDiscard else AwaitStatus)]
              && s'.tabs.generations == s.tabs.generations[e.tab.id := generation]
              && Lookup(s'.tabs.fullPageSessions, e.tab.id) == session
              && (waits ==> IsGone(s'.tabs, e.tab.id, s.tabs.fullPageSessions[e.tab.id].captureSessionId))
  {
    var s, e := t.states[i], t.events[i];
    Invariant(rules, t, i);
    if e.tab.id in s.tabs.fullPageSessions {
      StartFrame(s, e.r, e.mode, e.tab, e.uuid);
      PreviousGone(s.tabs, e.tab.id, StartCapture(s, e.r, e.mode, e.tab, e.uuid).runs[e.r].session);
    }
  }

  // ---- What is asked for ----

  /** The status of the page can be used by this call. */
  predicate IsUsable(run: Run, status: PageStatus) {
    && status.supported
    && status.context.platform != "" && status.context.pageVersion != "" && status.context.pageSignature != ""
    && (run.session.Some? ==> status.viewport.Some? && status.scrollY.Some? && status.url == Some(run.tab.url))
  }

  /** The arm that a call asks for: the page of the status, and for a session its id, URL, viewport and position. */
  predicate AsksFor(run: Run, status: PageStatus, arm: ArmMessage) {
    && arm.tab == run.tab.id && arm.generation == run.generation && arm.context == status.context
    && (arm.FullArm? <==> run.session.Some?)
    && (arm.FullArm? ==>
          && arm.captureSessionId == run.session.value.captureSessionId && arm.url == run.tab.url
          && Some(arm.viewport) == status.viewport && Some(arm.scrollY) == status.scrollY)
  }

  lemma OneAsked(run: Run, status: PageStatus, arm: ArmMessage)
    requires IsUsable(run, status) && AsksFor(run, status, arm)
    ensures arm == ArmMessageOf(run, status)
  {
  }

  /**
   The page status. A call awaits the active tab with an arm if and only if it is current, the status is usable,
   and it asks for that arm, which parses. A call that is superseded, and one whose status is unusable, fails.
   */
  lemma StatusDecided(rules: Rules, t: Trace, i: nat, arm: ArmMessage)
    requires IsTrace(rules, t) && i < |t.events| && t.events[i].EvStatus? && t.events[i].status.Some?
    ensures var s, s', e := t.states[i], t.states[i + 1], t.events[i];
            var run, status, pc := s.runs[e.r], e.status.value, s'.runs[e.r].pc;
            var current := Lookup(s.tabs.generations, run.tab.id) == Some(run.generation);
            && (pc == AwaitActiveTab(arm) <==>
                current && IsUsable(run, status) && AsksFor(run, status, arm) && rules.parsesArm(arm))
            && (pc == AwaitActiveTab(arm) ==> Lookup(s'.tabs.latestArmGenerations, arm.tab) == Some(arm.generation))
            && (!current ==> FailsWith(pc, CaptureReplaced))
            && (current && !status.supported ==> FailsWith(pc, InactiveOrUnsupportedTab))
            && (current && IsUsable(run, status) ==> pc.AwaitActiveTab? || pc == AwaitArmReply(Replied(false)))
            && (current && !IsUsable(run, status) ==> Failing(pc))
  {
    var s, e := t.states[i], t.events[i];
    Invariant(rules, t, i);
    assert RunOk(s.tabs, s.history.ids, s.runs[e.r]);
    StatusSplits(rules, s, e.r, e.status.value);
    if IsUsable(s.runs[e.r], e.status.value) { ArmReceived(rules, s, e.r, e.status.value, arm); }
  }

  /** A current call's arm is at least as late as any before, so the handler takes it if it parses. */
  lemma ArmReceived(rules: Rules, s: State, r: nat, status: PageStatus, arm: ArmMessage)
    requires GenerationsOk(s) && r in s.runs && IsUsable(s.runs[r], status)
    ensures var s' := ReceiveArm(rules, s, r, ArmMessageOf(s.runs[r], status));
            var pc := s'.runs[r].pc;
            && (pc.AwaitActiveTab? || pc == AwaitArmReply(Replied(false)))
            && (pc == AwaitActiveTab(arm) ==> Lookup(s'.tabs.latestArmGenerations, arm.tab) == Some(arm.generation))
            && (IsCurrent(s.tabs, s.runs[r].tab.id, s.runs[r].generation) ==>
                  (pc == AwaitActiveTab(arm) <==> AsksFor(s.runs[r], status, arm) && rules.parsesArm(arm)))
  {
    if AsksFor(s.runs[r], status, arm) { OneAsked(s.runs[r], status, arm); }
  }

  predicate Failing(pc: StartPc) {
    pc.AwaitDiscard? || pc.Threw?
  }

  predicate FailsWith(pc: StartPc, error: StartError) {
    pc == AwaitDiscard(error) || pc == Threw(error)
  }

  lemma FailFails(s: State, r: nat, error: StartError)
    requires r in s.runs
    ensures FailsWith(Fail(s, r, error).runs[r].pc, error) && FailsWith(FailIfRecorded(s, r, error).runs[r].pc, error)
  {
  }

  lemma StatusSplits(rules: Rules, s: State, r: nat, status: PageStatus)
    requires r in s.runs
    ensures var s' := StatusReply(rules, s, r, Some(status));
            if !IsCurrent(s.tabs, s.runs[r].tab.id, s.runs[r].generation) then FailsWith(s'.runs[r].pc, CaptureReplaced)
            else if IsUsable(s.runs[r], status) then s' == ReceiveArm(rules, s, r, ArmMessageOf(s.runs[r], status))
            else Failing(s'.runs[r].pc) && (!status.supported ==> FailsWith(s'.runs[r].pc, InactiveOrUnsupportedTab))
  {
    FailFails(s, r, CaptureReplaced);
    FailFails(s, r, InactiveOrUnsupportedTab);
    FailFails(s, r, ContextMismatch);
  }

  /** The event before is the page status from which the call made this arm. */
  predicate AskedAt(t: Trace, j: nat, r: nat, arm: ArmMessage) {
    && j < |t.events| && j < |t.states| && t.events[j].EvStatus? && t.events[j].r == r && t.events[j].status.Some?
    && r in t.states[j].runs && AsksFor(t.states[j].runs[r], t.events[j].status.value, arm)
  }

  lemma AskedLast(rules: Rules, t: Trace, i: nat, r: nat)
    requires IsTrace(rules, t) && 0 < i < |t.states| && r in t.states[i].runs && t.states[i].runs[r].pc.AwaitActiveTab?
    ensures || (r in t.states[i - 1].runs && t.states[i - 1].runs[r] == t.states[i].runs[r])
            || AskedAt(t, i - 1, r, t.states[i].runs[r].pc.arm)
  {
    var s, e := t.states[i - 1], t.events[i - 1];
    if Resumes(e).Some? {
      ResumeFrame(rules, s, e);
      if e.EvStatus? && e.r == r && e.status.Some? {
        StatusDecided(rules, t, i - 1, t.states[i].runs[r].pc.arm);
      } else if Resumes(e).value == r {
        NoArmAsked(rules, s, e);
      }
    } else if e.EvStart? {
      StartFrame(s, e.r, e.mode, e.tab, e.uuid);
    } else if IsRequestEvent(e) {
      RequestsNarrow(rules, s, e);
    }
  }

  /** No other answer makes a call await the active tab. */
  lemma NoArmAsked(rules: Rules, s: State, e: Event)
    requires Enabled(s, e) && Resumes(e).Some? && !(e.EvStatus? && e.status.Some?)
    ensures Resumes(e).value in Step(rules, s, e).runs && !Step(rules, s, e).runs[Resumes(e).value].pc.AwaitActiveTab?
  {
    var r := Resumes(e).value;
    FailFails(s, r, BrowserFailure);
    if e.EvPreviousDiscarded? || e.EvArmReply? || e.EvContent? { AnswersDecided(rules, s, e); }
  }

  /** Every arm that awaits the active tab is what its call asked for on learning its page's status. */
  lemma {:induction false} ArmsComeFromStatus(rules: Rules, t: Trace, i: nat, r: nat) returns (j: nat)
    requires IsTrace(rules, t) && i < |t.states| && r in t.states[i].runs && t.states[i].runs[r].pc.AwaitActiveTab?
    ensures j < i && AskedAt(t, j, r, t.states[i].runs[r].pc.arm)
  {
    NoCallsAtFirst(rules, t);
    AskedLast(rules, t, i, r);
    if AskedAt(t, i - 1, r, t.states[i].runs[r].pc.arm) {
      j := i - 1;
    } else {
      j := ArmsComeFromStatus(rules, t, i - 1, r);
    }
  }

  lemma NoCallsAtFirst(rules: Rules, t: Trace)
    requires IsTrace(rules, t)
    ensures t.states[0].runs == map[]
  {
  }

  // ---- The other answers ----

  /**
   The other awaits. A call goes on if and only if it is current and, behind the arm request and the start of
   the content script, the answer is positive; a superseded call fails as replaced.
   */
  lemma AnswersDecided(rules: Rules, s: State, e: Event)
    requires Enabled(s, e) && (e.EvPreviousDiscarded? || e.EvArmReply? || e.EvContent?)
    ensures var run, pc := s.runs[e.r], Step(rules, s, e).runs[e.r].pc;
            var current := Lookup(s.tabs.generations, run.tab.id) == Some(run.generation);
            match e {
              case EvPreviousDiscarded(_) => if current then pc == AwaitStatus else FailsWith(pc, CaptureReplaced)
              case EvArmReply(_) =>
                if run.pc.answer == Rejected then FailsWith(pc, BrowserFailure)
                else if !current then FailsWith(pc, CaptureReplaced)
                else if run.pc.answer == Replied(true) then pc == AwaitContent
                else FailsWith(pc, NotArmed)
              case EvContent(_, answer) =>
                if answer == Rejected then FailsWith(pc, BrowserFailure)
                else if !current then FailsWith(pc, CaptureReplaced)
                else if answer == Replied(true) then pc == Returned
                else FailsWith(pc, StartFailed)
            }
  {
    FailFails(s, e.r, BrowserFailure);
    FailFails(s, e.r, CaptureReplaced);
    FailFails(s, e.r, NotArmed);
    FailFails(s, e.r, StartFailed);
  }

  // ---- Failed calls ----

  /** A record under the id of a call is of its session, and a failing call has none. */
  predicate IsForgotten(tabs: Tabs, run: Run) {
    run.session.Some? && run.tab.id in tabs.fullPageSessions
    && tabs.fullPageSessions[run.tab.id].captureSessionId == run.session.value.captureSessionId ==>
      tabs.fullPageSessions[run.tab.id] == run.session.value && !Failing(run.pc)
  }

  ghost predicate FailedForgotten(s: State) {
    forall r | r in s.runs :: IsForgotten(s.tabs, s.runs[r])
  }

  /** A record is the one of the state before, unless a start has just made it. */
  ghost predicate SessionsNarrow(tabs: Tabs, tabs': Tabs) {
    forall tab | tab in tabs'.fullPageSessions ::
      tab in tabs.fullPageSessions && tabs'.fullPageSessions[tab] == tabs.fullPageSessions[tab]
  }

  lemma FailForgets(s: State, r: nat, error: StartError)
    requires r in s.runs && IsForgotten(s.tabs, s.runs[r])
    ensures var s' := Fail(s, r, error); IsForgotten(s'.tabs, s'.runs[r]) && SessionsNarrow(s.tabs, s'.tabs)
    ensures var s' := FailIfRecorded(s, r, error); IsForgotten(s'.tabs, s'.runs[r]) && SessionsNarrow(s.tabs, s'.tabs)
  {
    if s.runs[r].session.Some? { DiscardNarrows(s.tabs, s.runs[r].tab.id, s.runs[r].session.value); }
  }

  ghost predicate FailedNow(s: State, s': State, r: nat)
    requires r in s.runs
  {
    exists error :: s' == Fail(s, r, error) || s' == FailIfRecorded(s, r, error)
  }

  /** The call goes on, or ends its discard, and no record changes. */
  predicate GoesOn(s: State, s': State, r: nat) {
    && r in s.runs && r in s'.runs && s'.runs[r] == s.runs[r].(pc := s'.runs[r].pc)
    && s'.tabs.fullPageSessions == s.tabs.fullPageSessions
    && (Failing(s'.runs[r].pc) ==> Failing(s.runs[r].pc))
  }

  lemma StatusSteps(rules: Rules, s: State, r: nat, reply: Option<PageStatus>)
    requires r in s.runs
    ensures var s' := StatusReply(rules, s, r, reply); FailedNow(s, s', r) || GoesOn(s, s', r)
  {
  }

  lemma AnswerSteps(s: State, r: nat, answer: Answer)
    requires r in s.runs
    ensures var s' := PreviousDiscarded(s, r); FailedNow(s, s', r) || GoesOn(s, s', r)
    ensures s.runs[r].pc.AwaitArmReply? ==> var s' := ArmReply(s, r); FailedNow(s, s', r) || GoesOn(s, s', r)
    ensures var s' := ContentReply(s, r, answer); FailedNow(s, s', r) || GoesOn(s, s', r)
  {
  }

  lemma ResumeSteps(rules: Rules, s: State, e: Event)
    requires Enabled(s, e) && Resumes(e).Some?
    ensures var s', r := Step(rules, s, e), Resumes(e).value; FailedNow(s, s', r) || GoesOn(s, s', r)
  {
    if e.EvStatus? { StatusSteps(rules, s, e.r, e.status); }
    else { AnswerSteps(s, Resumes(e).value, if e.EvContent? then e.answer else Rejected); }
  }

  lemma ResumeForgets(rules: Rules, s: State, e: Event)
    requires FailedForgotten(s) && Enabled(s, e) && Resumes(e).Some?
    ensures var s', r := Step(rules, s, e), Resumes(e).value;
            r in s'.runs && IsForgotten(s'.tabs, s'.runs[r]) && SessionsNarrow(s.tabs, s'.tabs)
  {
    ResumeSteps(rules, s, e);
    FailingForgets(s, Step(rules, s, e), Resumes(e).value);
  }

  lemma FailingForgets(s: State, s': State, r: nat)
    requires FailedForgotten(s) && r in s.runs && (FailedNow(s, s', r) || GoesOn(s, s', r))
    ensures r in s'.runs && IsForgotten(s'.tabs, s'.runs[r]) && SessionsNarrow(s.tabs, s'.tabs)
  {
    assert IsForgotten(s.tabs, s.runs[r]);
    if FailedNow(s, s', r) {
      var error :| s' == Fail(s, r, error) || s' == FailIfRecorded(s, r, error);
      FailForgets(s, r, error);
    }
  }

  lemma NarrowKeepsForgotten(tabs: Tabs, tabs': Tabs, run: Run)
    requires IsForgotten(tabs, run) && SessionsNarrow(tabs, tabs')
    ensures IsForgotten(tabs', run)
  {
  }

  lemma StartKeepsForgotten(s: State, r: nat, mode: Mode, tab: SupportedTab, uuid: string)
    requires GenerationsOk(s) && FailedForgotten(s) && r !in s.runs && uuid !in s.history.ids
    ensures FailedForgotten(StartCapture(s, r, mode, tab, uuid))
  {
    var s' := StartCapture(s, r, mode, tab, uuid);
    StartFrame(s, r, mode, tab, uuid);
    forall r0 | r0 in s'.runs
      ensures IsForgotten(s'.tabs, s'.runs[r0])
    {
      if r0 != r {
        assert IsForgotten(s.tabs, s.runs[r0]) && RunOk(s.tabs, s.history.ids, s.runs[r0]);
        StartKeepsOthers(s, r, mode, tab, uuid, s.runs[r0]);
      }
    }
  }

  lemma StartKeepsOthers(s: State, r: nat, mode: Mode, tab: SupportedTab, uuid: string, run: Run)
    requires IsForgotten(s.tabs, run) && (run.session.Some? ==> run.session.value.captureSessionId != uuid)
    ensures IsForgotten(StartCapture(s, r, mode, tab, uuid).tabs, run)
  {
    var session := if mode.FullPage? then Some(Session(uuid, NextGeneration(s.tabs, tab.id))) else None;
    var entered := EnterCapture(s.tabs, tab.id, NextGeneration(s.tabs, tab.id), session);
    assert IsForgotten(entered, run);
    if tab.id in s.tabs.fullPageSessions {
      DiscardNarrows(entered, tab.id, s.tabs.fullPageSessions[tab.id]);
      NarrowKeepsForgotten(entered, StartCapture(s, r, mode, tab, uuid).tabs, run);
    }
  }

  lemma OthersKeepForgotten(rules: Rules, s: State, e: Event)
    requires FailedForgotten(s) && Enabled(s, e) && Resumes(e).None? && !e.EvStart?
    ensures FailedForgotten(Step(rules, s, e))
  {
    var s' := Step(rules, s, e);
    if IsRequestEvent(e) {
      RequestsNarrow(rules, s, e);
    } else if e.EvArmActiveTab? {
      ArmingFrame(rules, s, e.r, e.active, e.now);
    } else {
      CancelForgets(rules, s);
    }
    forall r | r in s'.runs
      ensures IsForgotten(s'.tabs, s'.runs[r])
    {
      assert IsForgotten(s.tabs, s.runs[r]);
    }
  }

  lemma ForgottenStep(rules: Rules, s: State, e: Event)
    requires GenerationsOk(s) && FailedForgotten(s) && Enabled(s, e)
    ensures FailedForgotten(Step(rules, s, e))
  {
    if Resumes(e).Some? {
      var s' := Step(rules, s, e);
      ResumeFrame(rules, s, e);
      ResumeForgets(rules, s, e);
      forall r | r in s'.runs && r != Resumes(e).value
        ensures IsForgotten(s'.tabs, s'.runs[r])
      {
        NarrowKeepsForgotten(s.tabs, s'.tabs, s.runs[r]);
      }
    } else if e.EvStart? {
      StartKeepsForgotten(s, e.r, e.mode, e.tab, e.uuid);
    } else {
      OthersKeepForgotten(rules, s, e);
    }
  }

  lemma {:induction false} ForgottenAlways(rules: Rules, t: Trace, i: nat)
    requires IsTrace(rules, t) && i < |t.states|
    ensures FailedForgotten(t.states[i])
  {
    if i == 0 {
      NoCallsAtFirst(rules, t);
    } else {
      ForgottenAlways(rules, t, i - 1);
      Invariant(rules, t, i - 1);
      ForgottenStep(rules, t.states[i - 1], t.events[i - 1]);
    }
  }

  /** A call that is throwing or has thrown leaves no session behind: its id is neither recorded nor armed. */
  lemma FailedCallsLeaveNothing(rules: Rules, t: Trace, i: nat, r: nat)
    requires IsTrace(rules, t) && i < |t.states| && r in t.states[i].runs && t.states[i].runs[r].session.Some?
    requires t.states[i].runs[r].pc.AwaitDiscard? || t.states[i].runs[r].pc.Threw?
    ensures IsGone(t.states[i].tabs, t.states[i].runs[r].tab.id, t.states[i].runs[r].session.value.captureSessionId)
  {
    var s, run := t.states[i], t.states[i].runs[r];
    Invariant(rules, t, i);
    ForgottenAlways(rules, t, i);
    assert IsForgotten(s.tabs, run) && RunOk(s.tabs, s.history.ids, run);
  }

  // ---- Cancel and END ----

  /**
   A `cancel` counts every generation up by one, forgets every recorded session, and disarms a tab if and only if
   its armed session is the recorded one; nothing else changes.
   */
  lemma CancelDoes(rules: Rules, s: State)
    ensures var s' := Step(rules, s, EvCancel);
            && s' == s.(tabs := s'.tabs)
            && s'.tabs == s.tabs.(generations := s'.tabs.generations, fullPageSessions := map[],
                                  armedFullPageTabs := s'.tabs.armedFullPageTabs)
            && s'.tabs.generations.Keys == s.tabs.generations.Keys
            && (forall tab | tab in s.tabs.generations :: s'.tabs.generations[tab] == s.tabs.generations[tab] + 1)
            && SubMap(s.tabs.armedFullPageTabs, s'.tabs.armedFullPageTabs)
            && (forall tab | tab in s.tabs.armedFullPageTabs ::
                  tab !in s'.tabs.armedFullPageTabs <==>
                  && tab in s.tabs.fullPageSessions
                  && s.tabs.fullPageSessions[tab].captureSessionId == s.tabs.armedFullPageTabs[tab].captureSessionId)
  {
  }

  /** An END message of the armed session's tab and id disarms it and forgets its record; any other does nothing. */
  lemma EndDoes(rules: Rules, s: State, tab: int, id: string)
    ensures var s' := Step(rules, s, EvEnd(tab, id));
            if tab in s.tabs.armedFullPageTabs && s.tabs.armedFullPageTabs[tab].captureSessionId == id
            then
              && IsGone(s'.tabs, tab, id) && tab !in s'.tabs.armedFullPageTabs
              && s' == s.(tabs := s.tabs.(armedFullPageTabs := s.tabs.armedFullPageTabs - {tab},
                                          fullPageSessions := s'.tabs.fullPageSessions))
              && (s'.tabs.fullPageSessions == s.tabs.fullPageSessions - {tab}
                  || (s'.tabs.fullPageSessions == s.tabs.fullPageSessions
                      && IsGone(s.tabs.(armedFullPageTabs := map[]), tab, id)))
            else s' == s
  {
  }
}

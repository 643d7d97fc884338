/**
 Safe arms after a `cancel` or a newer start. Nobody answers for them as the coordinator does for full-page
 sessions: a superseded call without a session only throws, and an arm it has asked for may still be
 installed. This says exactly when a safe arm outlives the calls that a `cancel` or a start supersedes.
 */
module CaptureSafeArms {
  import opened Wrappers
  import opened CaptureModel
  import opened CaptureGenerations
  import opened CaptureFencing
  import opened CaptureFrames
  import opened CaptureTheorems

  ghost predicate NoStart(events: seq<Event>) {
    forall e | e in events :: !e.EvStart?
  }

  ghost predicate AllEnded(s: State) {
    forall r | r in s.runs :: !InFlight(s.runs[r])
  }

  // ---- When a safe arm can come ----

  /** The answer of the browser lets the awaiting safe arm of this call in. */
  predicate LetsIn(rules: Rules, s: State, r: nat, tab: int, active: BrowserTab) {
    && r in s.runs && s.runs[r].tab.id == tab && s.runs[r].session.None?
    && s.runs[r].pc.AwaitActiveTab? && s.runs[r].pc.arm.tab == tab
    && Lookup(s.tabs.latestArmGenerations, tab) == Some(s.runs[r].pc.arm.generation)
    && ArmMatchesActiveTab(rules, s.runs[r].pc.arm, active)
  }

  /** The tab has a safe arm, or a call without a session awaits `queryActiveTab` with the latest arm generation. */
  ghost predicate SafeArmDue(rules: Rules, s: State, tab: int) {
    tab in s.tabs.armedTabs || exists r, active :: LetsIn(rules, s, r, tab, active)
  }

  /** The tab has a safe arm older than the generation, or one may still be let in. */
  ghost predicate OldArmDue(rules: Rules, s: State, tab: int, generation: nat) {
    || HasOldArm(s, tab, generation)
    || exists r, active :: LetsIn(rules, s, r, tab, active) && s.runs[r].generation < generation
  }

  predicate HasOldArm(s: State, tab: int, generation: nat) {
    tab in s.tabs.armedTabs && s.tabs.armedTabs[tab].armGeneration < generation
  }

  /** The tab's counter has reached the generation. */
  predicate HasReached(s: State, tab: int, generation: nat) {
    tab in s.tabs.generations && generation <= s.tabs.generations[tab]
  }

  predicate Outdated(s: State, r: nat)
    requires r in s.runs
  {
    s.runs[r].tab.id in s.tabs.generations && s.runs[r].generation < s.tabs.generations[s.runs[r].tab.id]
  }

  // ---- What failing leaves alone ----

  /** The step sends no arm message and leaves the safe arms alone. */
  ghost predicate SendsNoArm(s: State, s': State) {
    && s'.tabs.latestArmGenerations == s.tabs.latestArmGenerations && s'.tabs.armedTabs == s.tabs.armedTabs
    && forall r | r in s.runs && r in s'.runs && s'.runs[r].pc.AwaitActiveTab? :: s'.runs[r] == s.runs[r]
  }

  lemma SetPcSendsNoArm(s: State, r: nat, pc: StartPc)
    requires r in s.runs && !pc.AwaitActiveTab?
    ensures SendsNoArm(s, SetPc(s, r, pc))
  {
  }

  lemma DiscardKeepsSafeArms(tabs: Tabs, tab: int, session: Session)
    ensures DiscardFullPage(tabs, tab, session).armedTabs == tabs.armedTabs
    ensures DiscardFullPage(tabs, tab, session).latestArmGenerations == tabs.latestArmGenerations
  {
  }

  lemma FailSendsNoArm(s: State, r: nat, error: StartError)
    requires r in s.runs
    ensures SendsNoArm(s, Fail(s, r, error)) && SendsNoArm(s, FailIfRecorded(s, r, error))
  {
    SetPcSendsNoArm(s, r, Threw(error));
    SetPcSendsNoArm(s, r, AwaitDiscard(error));
    if s.runs[r].session.Some? { DiscardKeepsSafeArms(s.tabs, s.runs[r].tab.id, s.runs[r].session.value); }
  }

  lemma ArmReplySendsNoArm(s: State, r: nat)
    requires r in s.runs && s.runs[r].pc.AwaitArmReply?
    ensures SendsNoArm(s, ArmReply(s, r))
  {
    if s.runs[r].pc.answer.Rejected? {
      FailSendsNoArm(s, r, BrowserFailure);
    } else {
      FailSendsNoArm(s, r, CaptureReplaced);
      FailSendsNoArm(s, r, NotArmed);
      SetPcSendsNoArm(s, r, AwaitContent);
    }
  }

  lemma ContentReplySendsNoArm(s: State, r: nat, answer: Answer)
    requires r in s.runs
    ensures SendsNoArm(s, ContentReply(s, r, answer))
  {
    if answer.Rejected? {
      FailSendsNoArm(s, r, BrowserFailure);
    } else {
      FailSendsNoArm(s, r, CaptureReplaced);
      FailSendsNoArm(s, r, StartFailed);
      SetPcSendsNoArm(s, r, Returned);
    }
  }

  /** A resumed call that gets no page status, or is superseded, sends no arm message. */
  lemma ResumeSendsNoArm(rules: Rules, s: State, e: Event)
    requires Enabled(s, e) && Resumes(e).Some?
    requires e.EvStatus? ==> e.status.None? || Outdated(s, e.r)
    ensures SendsNoArm(s, Step(rules, s, e))
  {
    match e
    case EvPreviousDiscarded(r) => FailSendsNoArm(s, r, CaptureReplaced); SetPcSendsNoArm(s, r, AwaitStatus);
    case EvStatus(r, status) => FailSendsNoArm(s, r, BrowserFailure); FailSendsNoArm(s, r, CaptureReplaced);
    case EvArmReply(r) => ArmReplySendsNoArm(s, r);
    case EvContent(r, answer) => ContentReplySendsNoArm(s, r, answer);
    case EvDiscarded(r) => SetPcSendsNoArm(s, r, Threw(s.runs[r].pc.error));
  }

  // ---- Backwards: nothing else brings one ----

  /** A superseded call was there before, and keeps its tab, generation and session. */
  lemma OldRunStays(rules: Rules, s: State, e: Event, r: nat, generation: nat)
    requires Enabled(s, e) && r in Step(rules, s, e).runs
    requires var run := Step(rules, s, e).runs[r]; HasReached(s, run.tab.id, generation) && run.generation < generation
    ensures r in s.runs && Step(rules, s, e).runs[r] == s.runs[r].(pc := Step(rules, s, e).runs[r].pc)
  {
    if e.EvStart? { StartFrame(s, e.r, e.mode, e.tab, e.uuid); }
    if r in s.runs { RunProgress(rules, s, e, r); }
    else if Resumes(e).Some? { ResumeFrame(rules, s, e); }
    else if IsRequestEvent(e) { RequestsNarrow(rules, s, e); }
  }

  lemma ReplyInstalls(rules: Rules, s: State, r: nat, reply: Option<BrowserTab>, now: int, tab: int)
    requires GenerationsOk(s) && r in s.runs && s.runs[r].pc.AwaitActiveTab?
    requires tab in ArmActiveTab(rules, s, r, reply, now).tabs.armedTabs
    ensures var armed := ArmActiveTab(rules, s, r, reply, now).tabs.armedTabs[tab];
            || (tab in s.tabs.armedTabs && armed == s.tabs.armedTabs[tab])
            || (reply.Some? && LetsIn(rules, s, r, tab, reply.value) && armed.armGeneration == s.runs[r].generation)
  {
    assert RunOk(s.tabs, s.history.ids, s.runs[r]);
  }

  /** Only the reply of `queryActiveTab` to an awaiting arm puts a safe arm on a tab, or replaces it. */
  lemma OnlyRepliesInstall(rules: Rules, s: State, e: Event, tab: int)
    requires GenerationsOk(s) && Enabled(s, e) && tab in Step(rules, s, e).tabs.armedTabs
    ensures || (tab in s.tabs.armedTabs && Step(rules, s, e).tabs.armedTabs[tab] == s.tabs.armedTabs[tab])
            || (e.EvArmActiveTab? && e.active.Some? && LetsIn(rules, s, e.r, tab, e.active.value)
                && Step(rules, s, e).tabs.armedTabs[tab].armGeneration == s.runs[e.r].generation)
  {
    if e.EvArmActiveTab? {
      ReplyInstalls(rules, s, e.r, e.active, e.now, tab);
    } else {
      OthersInstallNothing(rules, s, e);
    }
  }

  /** What a step does to the tab's latest arm generation: nothing, or it becomes that of a current call. */
  lemma LatestStep(rules: Rules, s: State, e: Event, tab: int)
    requires GenerationsOk(s) && Enabled(s, e)
    ensures var latest := Lookup(Step(rules, s, e).tabs.latestArmGenerations, tab);
            || latest == Lookup(s.tabs.latestArmGenerations, tab)
            || (tab in s.tabs.generations && latest == Some(s.tabs.generations[tab]))
  {
    if e.EvStatus? && e.status.Some? && !Outdated(s, e.r) {
      assert RunOk(s.tabs, s.history.ids, s.runs[e.r]);
      StatusLatest(rules, s, e.r, e.status.value, tab);
    } else if Resumes(e).Some? {
      ResumeSendsNoArm(rules, s, e);
    } else if IsRequestEvent(e) {
      RequestsNarrow(rules, s, e);
    } else if e.EvStart? {
      StartLatest(s, e.r, e.mode, e.tab, e.uuid);
    }
  }

  lemma StartLatest(s: State, r: nat, mode: Mode, tab: SupportedTab, uuid: string)
    ensures StartCapture(s, r, mode, tab, uuid).tabs.latestArmGenerations == s.tabs.latestArmGenerations
  {
    if tab.id in s.tabs.fullPageSessions {
      var run := StartCapture(s, r, mode, tab, uuid).runs[r];
      DiscardKeepsSafeArms(EnterCapture(s.tabs, tab.id, run.generation, run.session), tab.id,
                           s.tabs.fullPageSessions[tab.id]);
    }
  }

  lemma StatusLatest(rules: Rules, s: State, r: nat, status: PageStatus, tab: int)
    requires r in s.runs && IsCurrent(s.tabs, s.runs[r].tab.id, s.runs[r].generation)
    ensures var latest := Lookup(StatusReply(rules, s, r, Some(status)).tabs.latestArmGenerations, tab);
            || latest == Lookup(s.tabs.latestArmGenerations, tab)
            || (tab in s.tabs.generations && latest == Some(s.tabs.generations[tab]))
  {
    FailSendsNoArm(s, r, InactiveOrUnsupportedTab);
    FailSendsNoArm(s, r, ContextMismatch);
  }

  /** An awaiting arm of a superseded call was awaited before. */
  lemma AwaitedBefore(rules: Rules, s: State, e: Event, r: nat)
    requires Enabled(s, e) && r in s.runs && Outdated(s, r) && r in Step(rules, s, e).runs
    requires Step(rules, s, e).runs[r].pc.AwaitActiveTab?
    ensures Step(rules, s, e).runs[r] == s.runs[r]
  {
    if Resumes(e) == Some(r) {
      ResumeSendsNoArm(rules, s, e);
    } else if Resumes(e).Some? {
      ResumeFrame(rules, s, e);
    } else if IsRequestEvent(e) {
      RequestsNarrow(rules, s, e);
    } else if e.EvStart? {
      StartFrame(s, e.r, e.mode, e.tab, e.uuid);
    }
  }

  lemma LetInBefore(rules: Rules, s: State, e: Event, r: nat, tab: int, generation: nat, active: BrowserTab)
    requires GenerationsOk(s) && Enabled(s, e) && HasReached(s, tab, generation)
    requires LetsIn(rules, Step(rules, s, e), r, tab, active) && Step(rules, s, e).runs[r].generation < generation
    ensures LetsIn(rules, s, r, tab, active) && s.runs[r].generation < generation
  {
    OldRunStays(rules, s, e, r, generation);
    AwaitedBefore(rules, s, e, r);
    LatestStep(rules, s, e, tab);
    assert RunOk(s.tabs, s.history.ids, s.runs[r]);
  }

  lemma DueBefore(rules: Rules, s: State, e: Event, tab: int, generation: nat)
    requires GenerationsOk(s) && Enabled(s, e) && HasReached(s, tab, generation)
    requires OldArmDue(rules, Step(rules, s, e), tab, generation)
    ensures OldArmDue(rules, s, tab, generation)
  {
    var s' := Step(rules, s, e);
    if HasOldArm(s', tab, generation) {
      OnlyRepliesInstall(rules, s, e, tab);
      if !HasOldArm(s, tab, generation) { assert LetsIn(rules, s, e.r, tab, e.active.value); }
    } else {
      var r, active :| LetsIn(rules, s', r, tab, active) && s'.runs[r].generation < generation;
      LetInBefore(rules, s, e, r, tab, generation, active);
    }
  }

  lemma {:induction false} DueAtFirst(
      rules: Rules, s: State, events: seq<Event>, end: State, tab: int, generation: nat)
    requires GenerationsOk(s) && HasReached(s, tab, generation)
    requires Leads(rules, s, events, end) && OldArmDue(rules, end, tab, generation)
    ensures OldArmDue(rules, s, tab, generation)
    decreases |events|
  {
    if events != [] {
      GenerationsStep(rules, s, events[0]);
      GenerationsGrow(rules, s, events[0], tab);
      DueAtFirst(rules, Step(rules, s, events[0]), events[1..], end, tab, generation);
      DueBefore(rules, s, events[0], tab, generation);
    }
  }

  // ---- Forwards: every call can be ended without touching the safe arms ----

  /** An answer of the environment that brings a call closer to its end and installs nothing. */
  function Discouraging(s: State, r: nat): (e: Event)
    requires r in s.runs && InFlight(s.runs[r])
    ensures Enabled(s, e) && !e.EvStart?
  {
    match s.runs[r].pc
    case AwaitPreviousDiscard => EvPreviousDiscarded(r)
    case AwaitStatus => EvStatus(r, None)
    case AwaitActiveTab(_) => EvArmActiveTab(r, None, s.clock)
    case AwaitArmReply(_) => EvArmReply(r)
    case AwaitContent => EvContent(r, Rejected)
    case AwaitDiscard(_) => EvDiscarded(r)
  }

  lemma DiscouragingMoves(rules: Rules, s: State, r: nat)
    requires r in s.runs && InFlight(s.runs[r])
    ensures var s' := Step(rules, s, Discouraging(s, r));
            OnlyMoves(s, s', r) && Rank(s'.runs[r].pc) < Rank(s.runs[r].pc)
  {
    var e := Discouraging(s, r);
    if Resumes(e).Some? {
      ResumeFrame(rules, s, e);
      ResumeSendsNoArm(rules, s, e);
    }
  }

  /** The calls and safe arms of two states agree, apart from one call. */
  ghost predicate OnlyMoves(s: State, s': State, r: nat) {
    && r in s.runs && r in s'.runs && s'.runs == s.runs[r := s'.runs[r]]
    && s'.tabs.armedTabs == s.tabs.armedTabs
  }

  lemma {:induction false} EndOne(rules: Rules, s: State, r: nat) returns (events: seq<Event>, end: State)
    requires r in s.runs
    ensures Leads(rules, s, events, end) && NoStart(events) && OnlyMoves(s, end, r) && !InFlight(end.runs[r])
    decreases Rank(s.runs[r].pc)
  {
    if !InFlight(s.runs[r]) {
      events, end := [], s;
    } else {
      var e := Discouraging(s, r);
      var s' := Step(rules, s, e);
      DiscouragingMoves(rules, s, r);
      var rest;
      rest, end := EndOne(rules, s', r);
      events := [e] + rest;
      assert events[1..] == rest;
    }
  }

  lemma {:induction false} EndAll(rules: Rules, s: State, pending: set<int>) returns (events: seq<Event>, end: State)
    requires forall r | r in s.runs && InFlight(s.runs[r]) :: r in pending
    ensures Leads(rules, s, events, end) && NoStart(events) && AllEnded(end)
    ensures end.tabs.armedTabs == s.tabs.armedTabs
    decreases |pending|
  {
    SomeElement(pending);
    if pending == {} {
      events, end := [], s;
    } else {
      var r :| r in pending;
      var first, mid := [], s;
      if r in s.runs { first, mid := EndOne(rules, s, r); }
      var rest;
      rest, end := EndAll(rules, mid, pending - {r});
      events := first + rest;
      LeadsThrough(rules, s, first, mid, rest, end);
    }
  }

  lemma AllRuns(s: State) returns (pending: set<int>)
    ensures forall r | r in s.runs && InFlight(s.runs[r]) :: r in pending
  {
    pending := set r: nat | r in s.runs :: r;
  }

  lemma LetIn(rules: Rules, s: State, r: nat, tab: int, active: BrowserTab)
    requires GenerationsOk(s) && LetsIn(rules, s, r, tab, active)
    ensures var s' := Step(rules, s, EvArmActiveTab(r, Some(active), s.clock));
            tab in s'.tabs.armedTabs && s'.tabs.armedTabs[tab].armGeneration == s.runs[r].generation
  {
  }

  lemma DueArrives(rules: Rules, s: State, tab: int, generation: nat) returns (events: seq<Event>, end: State)
    requires GenerationsOk(s) && OldArmDue(rules, s, tab, generation)
    ensures OutlivesCalls(rules, s, events, end, tab, generation)
  {
    var first: seq<Event>, mid := [], s;
    if !HasOldArm(s, tab, generation) {
      var r, active :| LetsIn(rules, s, r, tab, active) && s.runs[r].generation < generation;
      LetIn(rules, s, r, tab, active);
      var e := EvArmActiveTab(r, Some(active), s.clock);
      first, mid := [e], Step(rules, s, e);
    }
    var pending := AllRuns(mid);
    var rest;
    rest, end := EndAll(rules, mid, pending);
    events := first + rest;
    LeadsThrough(rules, s, first, mid, rest, end);
  }

  // ---- At a cancel or a start ----

  /** Without another start all calls end, and the tab is left with a safe arm older than the generation. */
  ghost predicate OutlivesCalls(
      rules: Rules, s: State, events: seq<Event>, end: State, tab: int, generation: nat) {
    Leads(rules, s, events, end) && NoStart(events) && AllEnded(end) && HasOldArm(end, tab, generation)
  }

  ghost predicate CanOutlive(rules: Rules, s: State, tab: int, generation: nat) {
    exists events, end :: OutlivesCalls(rules, s, events, end, tab, generation)
  }

  /** Whatever happens, starts included, the tab has no safe arm older than the generation. */
  ghost predicate NeverOldArm(rules: Rules, s: State, tab: int, generation: nat) {
    forall events, end | Leads(rules, s, events, end) :: !HasOldArm(end, tab, generation)
  }

  lemma DueDecides(rules: Rules, s: State, tab: int, generation: nat)
    requires GenerationsOk(s) && HasReached(s, tab, generation)
    ensures OldArmDue(rules, s, tab, generation) <==> CanOutlive(rules, s, tab, generation)
    ensures OldArmDue(rules, s, tab, generation) || NeverOldArm(rules, s, tab, generation)
  {
    if OldArmDue(rules, s, tab, generation) {
      var events, end := DueArrives(rules, s, tab, generation);
    } else {
      forall events, end | Leads(rules, s, events, end)
        ensures !HasOldArm(end, tab, generation)
      {
        if HasOldArm(end, tab, generation) { DueAtFirst(rules, s, events, end, tab, generation); }
      }
    }
  }

  /** The event supersedes the calls of the tab: a `cancel`, or an accepted start on it. */
  predicate SupersedesTab(rules: Rules, s: State, e: Event, tab: int) {
    || (e.EvCancel? && tab in s.tabs.generations)
    || (e.EvStart? && e.tab.id == tab && (IsSupportedTab(rules, e.tab) || (e.allowHotspot && rules.isHttps(e.tab.url))))
  }

  lemma LetsInKept(rules: Rules, s: State, e: Event, r: nat, tab: int, active: BrowserTab)
    requires Enabled(s, e) && SupersedesTab(rules, s, e, tab) && r in s.runs
    ensures LetsIn(rules, Step(rules, s, e), r, tab, active) <==> LetsIn(rules, s, r, tab, active)
  {
    if e.EvStart? {
      StartFrame(s, e.r, e.mode, e.tab, e.uuid);
      StartLatest(s, e.r, e.mode, e.tab, e.uuid);
    }
  }

  lemma SupersedingKeepsArms(rules: Rules, s: State, e: Event, tab: int)
    requires Enabled(s, e) && SupersedesTab(rules, s, e, tab)
    ensures Step(rules, s, e).tabs.armedTabs == s.tabs.armedTabs
  {
    if e.EvStart? { StartKeepsSafeArms(s, e.r, e.mode, e.tab, e.uuid); }
  }

  lemma SupersedingGeneration(rules: Rules, s: State, e: Event, tab: int)
    requires GenerationsOk(s) && FencingOk(s) && Enabled(s, e) && SupersedesTab(rules, s, e, tab)
    ensures tab in Step(rules, s, e).tabs.generations
    ensures var generation := Step(rules, s, e).tabs.generations[tab];
            && (forall r | r in s.runs && s.runs[r].tab.id == tab :: s.runs[r].generation < generation)
            && (forall r | r in Step(rules, s, e).runs && Step(rules, s, e).runs[r].tab.id == tab ::
                  r in s.runs || Step(rules, s, e).runs[r].generation == generation)
            && (tab in s.tabs.armedTabs ==> s.tabs.armedTabs[tab].armGeneration < generation)
  {
    if e.EvStart? { StartFrame(s, e.r, e.mode, e.tab, e.uuid); }
    forall r | r in s.runs && s.runs[r].tab.id == tab
      ensures s.runs[r].generation < Step(rules, s, e).tabs.generations[tab]
    {
      assert RunOk(s.tabs, s.history.ids, s.runs[r]);
    }
    if tab in s.tabs.armedTabs { assert Install(tab, s.tabs.armedTabs[tab].armGeneration) in s.history.installs; }
  }

  /** Every arm and every call of the tab is older than the generation that supersedes them. */
  lemma SupersedingKeepsDue(rules: Rules, s: State, e: Event, tab: int)
    requires GenerationsOk(s) && FencingOk(s) && Enabled(s, e) && SupersedesTab(rules, s, e, tab)
    ensures var s' := Step(rules, s, e);
            tab in s'.tabs.generations &&
            (OldArmDue(rules, s', tab, s'.tabs.generations[tab]) <==> SafeArmDue(rules, s, tab))
  {
    var s' := Step(rules, s, e);
    SupersedingKeepsArms(rules, s, e, tab);
    SupersedingGeneration(rules, s, e, tab);
    if r, active :| LetsIn(rules, s, r, tab, active) {
      RunProgress(rules, s, e, r);
      LetsInKept(rules, s, e, r, tab, active);
    }
    if r, active :| LetsIn(rules, s', r, tab, active) && s'.runs[r].generation < s'.tabs.generations[tab] {
      LetsInKept(rules, s, e, r, tab, active);
    }
  }

  /**
   When a `cancel` or an accepted start supersedes the calls of a tab, a safe arm of theirs can outlive all
   calls if and only if at that moment the tab has a safe arm, or a call without a session awaits
   `queryActiveTab` with the latest arm generation of the tab and some active tab matches the arm. Otherwise
   no safe arm older than the new generation is ever on the tab again.
   */
  lemma SafeArmOutlives(rules: Rules, t: Trace, i: nat, tab: int)
    requires IsTrace(rules, t) && i < |t.events| && SupersedesTab(rules, t.states[i], t.events[i], tab)
    ensures var s, s' := t.states[i], t.states[i + 1];
            && tab in s'.tabs.generations
            && (SafeArmDue(rules, s, tab) <==> CanOutlive(rules, s', tab, s'.tabs.generations[tab]))
            && (SafeArmDue(rules, s, tab) || NeverOldArm(rules, s', tab, s'.tabs.generations[tab]))
  {
    Invariant(rules, t, i);
    Invariant(rules, t, i + 1);
    SupersedingKeepsDue(rules, t.states[i], t.events[i], tab);
    DueDecides(rules, t.states[i + 1], tab, t.states[i + 1].tabs.generations[tab]);
  }

  // ---- Before the next start ----

  /** Every call and every safe arm of the tab is older than the generation. */
  ghost predicate AllOlder(s: State, tab: int, generation: nat) {
    && (forall r | r in s.runs && s.runs[r].tab.id == tab :: s.runs[r].generation < generation)
    && (tab in s.tabs.armedTabs ==> HasOldArm(s, tab, generation))
  }

  /** No call appears without a start, and a call keeps its tab, generation and session. */
  lemma RunStays(rules: Rules, s: State, e: Event, r: nat)
    requires Enabled(s, e) && !e.EvStart? && r in Step(rules, s, e).runs
    ensures r in s.runs && Step(rules, s, e).runs[r] == s.runs[r].(pc := Step(rules, s, e).runs[r].pc)
  {
    if Resumes(e).Some? {
      ResumeFrame(rules, s, e);
    } else if IsRequestEvent(e) {
      RequestsNarrow(rules, s, e);
    }
  }

  lemma AllOlderStays(rules: Rules, s: State, e: Event, tab: int, generation: nat)
    requires GenerationsOk(s) && Enabled(s, e) && !e.EvStart? && AllOlder(s, tab, generation)
    ensures AllOlder(Step(rules, s, e), tab, generation)
  {
    var s' := Step(rules, s, e);
    forall r | r in s'.runs && s'.runs[r].tab.id == tab
      ensures s'.runs[r].generation < generation
    {
      RunStays(rules, s, e, r);
    }
    if tab in s'.tabs.armedTabs { OnlyRepliesInstall(rules, s, e, tab); }
  }

  lemma {:induction false} AllOlderAlong(
      rules: Rules, s: State, events: seq<Event>, end: State, tab: int, generation: nat)
    requires GenerationsOk(s) && Leads(rules, s, events, end) && NoStart(events) && AllOlder(s, tab, generation)
    ensures AllOlder(end, tab, generation)
    decreases |events|
  {
    if events != [] {
      GenerationsStep(rules, s, events[0]);
      AllOlderStays(rules, s, events[0], tab, generation);
      AllOlderAlong(rules, Step(rules, s, events[0]), events[1..], end, tab, generation);
    }
  }

  /** Without another start all calls end, and the tab is left with a safe arm. */
  ghost predicate LeavesArm(rules: Rules, s: State, events: seq<Event>, end: State, tab: int) {
    Leads(rules, s, events, end) && NoStart(events) && AllEnded(end) && tab in end.tabs.armedTabs
  }

  ghost predicate CanLeaveArm(rules: Rules, s: State, tab: int) {
    exists events, end :: LeavesArm(rules, s, events, end, tab)
  }

  ghost predicate NeverArmedSafely(rules: Rules, s: State, tab: int) {
    forall events, end | Leads(rules, s, events, end) && NoStart(events) :: tab !in end.tabs.armedTabs
  }

  lemma CancelOutdatesAll(rules: Rules, s: State, tab: int)
    requires GenerationsOk(s) && FencingOk(s)
    ensures var s' := Step(rules, s, EvCancel);
            AllOlder(s', tab, if tab in s'.tabs.generations then s'.tabs.generations[tab] else 0)
  {
  }

  /**
   After a `cancel` and before the next start, a safe arm on a tab can outlive all calls if and only if at
   the cancel the tab has one, or a call without a session awaits `queryActiveTab` with the latest arm
   generation of the tab and some active tab matches the arm. Otherwise the tab has none in any such state.
   */
  lemma SafeArmOutlivesCancel(rules: Rules, t: Trace, i: nat, tab: int)
    requires IsTrace(rules, t) && i < |t.events| && t.events[i].EvCancel?
    ensures SafeArmDue(rules, t.states[i], tab) <==> CanLeaveArm(rules, t.states[i + 1], tab)
    ensures SafeArmDue(rules, t.states[i], tab) || NeverArmedSafely(rules, t.states[i + 1], tab)
  {
    var s, s' := t.states[i], t.states[i + 1];
    Invariant(rules, t, i);
    Invariant(rules, t, i + 1);
    CancelOutdatesAll(rules, s, tab);
    if tab in s.tabs.generations {
      SafeArmOutlives(rules, t, i, tab);
      CancelDecides(rules, s', tab, s'.tabs.generations[tab]);
    } else {
      NothingDue(rules, s, tab);
      NothingOlder(rules, s', tab);
      NeverLeaves(rules, s', tab);
    }
  }

  lemma NothingDue(rules: Rules, s: State, tab: int)
    requires GenerationsOk(s) && FencingOk(s) && tab !in s.tabs.generations
    ensures !SafeArmDue(rules, s, tab)
  {
  }

  lemma NothingOlder(rules: Rules, s: State, tab: int)
    requires GenerationsOk(s) && AllOlder(s, tab, 0)
    ensures NeverArmedSafely(rules, s, tab)
  {
    forall events, end | Leads(rules, s, events, end) && NoStart(events)
      ensures tab !in end.tabs.armedTabs
    {
      AllOlderAlong(rules, s, events, end, tab, 0);
    }
  }

  lemma NeverLeaves(rules: Rules, s: State, tab: int)
    requires NeverArmedSafely(rules, s, tab)
    ensures !CanLeaveArm(rules, s, tab)
  {
  }

  /** Where all calls and arms are old, the arms left without a start are the old ones. */
  lemma CancelDecides(rules: Rules, s: State, tab: int, generation: nat)
    requires GenerationsOk(s) && AllOlder(s, tab, generation)
    ensures CanLeaveArm(rules, s, tab) <==> CanOutlive(rules, s, tab, generation)
    ensures NeverOldArm(rules, s, tab, generation) ==> NeverArmedSafely(rules, s, tab)
  {
    forall events, end | Leads(rules, s, events, end) && NoStart(events)
      ensures tab in end.tabs.armedTabs <==> HasOldArm(end, tab, generation)
    {
      AllOlderAlong(rules, s, events, end, tab, generation);
    }
    if events, end :| OutlivesCalls(rules, s, events, end, tab, generation) {
      assert LeavesArm(rules, s, events, end, tab);
    }
    if events, end :| LeavesArm(rules, s, events, end, tab) {
      assert OutlivesCalls(rules, s, events, end, tab, generation);
    }
  }

  // ---- When a safe arm goes ----

  lemma StatusKeepsSafeArms(rules: Rules, s: State, r: nat, reply: Option<PageStatus>)
    requires r in s.runs
    ensures StatusReply(rules, s, r, reply).tabs.armedTabs == s.tabs.armedTabs
  {
    FailSendsNoArm(s, r, BrowserFailure);
    FailSendsNoArm(s, r, CaptureReplaced);
    FailSendsNoArm(s, r, InactiveOrUnsupportedTab);
    FailSendsNoArm(s, r, ContextMismatch);
  }

  lemma StartKeepsSafeArms(s: State, r: nat, mode: Mode, tab: SupportedTab, uuid: string)
    ensures StartCapture(s, r, mode, tab, uuid).tabs.armedTabs == s.tabs.armedTabs
  {
    if tab.id in s.tabs.fullPageSessions {
      var run := StartCapture(s, r, mode, tab, uuid).runs[r];
      DiscardKeepsSafeArms(EnterCapture(s.tabs, tab.id, run.generation, run.session), tab.id,
                           s.tabs.fullPageSessions[tab.id]);
    }
  }

  /** The reply to `queryActiveTab` that puts a full-page arm on the tab. */
  predicate InstallsFullPage(rules: Rules, s: State, e: Event, tab: int)
    requires Enabled(s, e)
  {
    && e.EvArmActiveTab? && e.active.Some?
    && var arm := s.runs[e.r].pc.arm;
       arm.FullArm? && arm.tab == tab && Lookup(s.tabs.latestArmGenerations, tab) == Some(arm.generation)
       && ArmMatchesActiveTab(rules, arm, e.active.value)
  }

  lemma OtherStepsKeepSafeArms(rules: Rules, s: State, e: Event)
    requires Enabled(s, e) && !e.EvShotActiveTab? && !e.EvArmActiveTab?
    ensures Step(rules, s, e).tabs.armedTabs == s.tabs.armedTabs
  {
    if e.EvStart? {
      StartKeepsSafeArms(s, e.r, e.mode, e.tab, e.uuid);
    } else if e.EvStatus? {
      StatusKeepsSafeArms(rules, s, e.r, e.status);
    } else if Resumes(e).Some? {
      ResumeSendsNoArm(rules, s, e);
    } else if e.EvSliceActiveTab? {
      SlicesKeepSafeArms(rules, s, e.q, e.active, e.now, e.later);
    }
  }

  /**
   A safe arm leaves its map exactly when a visible-tab request of its tab learns the active tab, whether
   it is granted or refused, or when a full-page arm is installed on its tab. No `cancel`, no END and no
   failing call removes it.
   */
  lemma SafeArmLeaves(rules: Rules, s: State, e: Event, tab: int)
    requires Enabled(s, e) && tab in s.tabs.armedTabs
    ensures tab !in Step(rules, s, e).tabs.armedTabs <==>
            || (e.EvShotActiveTab? && e.active.Some? && s.shotRequests[e.q].tab.id == Some(tab))
            || InstallsFullPage(rules, s, e, tab)
  {
    if !e.EvShotActiveTab? && !e.EvArmActiveTab? { OtherStepsKeepSafeArms(rules, s, e); }
  }

  lemma SlicesKeepSafeArms(rules: Rules, s: State, q: nat, reply: Option<BrowserTab>, now: int, later: int)
    requires q in s.sliceRequests
    ensures SliceActiveTab(rules, s, q, reply, now, later).tabs.armedTabs == s.tabs.armedTabs
  {
  }

  // ---- A cancelled call that arms its tab and lets a capture through ----

  const URL := "https://page"
  const CONTEXT := Context("platform", "version", "signature")
  const RULES := Rules(_ => Detected(true, Some("platform"), "version"), _ => true, _ => true)
  const ARM := SafeArm(1, 1, CONTEXT)
  const BROWSER_TAB := BrowserTab(Some(1), Some(1), Some(URL))

  /** One call without a session on tab 1, and what has come of it. */
  function Scene(
      pc: StartPc, generation: nat, latest: map<int, nat>, safe: map<int, SafeEntry>, shots: map<nat, ShotRequest>,
      history: History): State
  {
    State(Tabs(map[1 := generation], map[], safe, map[], latest), map[0 := Run(SupportedTab(1, 1, URL), 1, None, pc)],
          map[], shots, history, 0)
  }

  function Installed(shots: seq<Install>): History {
    History({}, map[], [Install(1, 1)], [], shots)
  }

  const NOTHING := History({}, map[], [], [], [])
  const ENTRY := SafeEntry(1, ARM_LIFETIME_MS, CONTEXT, URL)

  function Shot(pc: ShotPc): map<nat, ShotRequest> {
    map[0 := ShotRequest(BROWSER_TAB, "signature", pc)]
  }

  const LATE_ARM := Trace(
    [ Initial(0),
      Scene(AwaitStatus, 1, map[], map[], map[], NOTHING),
      Scene(AwaitActiveTab(ARM), 1, map[1 := 1], map[], map[], NOTHING),
      Scene(AwaitActiveTab(ARM), 2, map[1 := 1], map[], map[], NOTHING),
      Scene(AwaitArmReply(Replied(true)), 2, map[1 := 1], map[1 := ENTRY], map[], Installed([])),
      Scene(Threw(CaptureReplaced), 2, map[1 := 1], map[1 := ENTRY], map[], Installed([])),
      Scene(Threw(CaptureReplaced), 2, map[1 := 1], map[1 := ENTRY], Shot(ShotAwaitActiveTab), Installed([])),
      Scene(Threw(CaptureReplaced), 2, map[1 := 1], map[], Shot(ShotAwaitImage), Installed([Install(1, 1)])) ],
    [ EvStart(0, Visible, SupportedTab(1, 1, URL), false, ""),
      EvStatus(0, Some(PageStatus(true, CONTEXT, None, None, None))),
      EvCancel,
      EvArmActiveTab(0, Some(BROWSER_TAB), 0),
      EvArmReply(0),
      EvShot(0, BROWSER_TAB, "signature"),
      EvShotActiveTab(0, Some(BROWSER_TAB), 0) ])

  ghost predicate IsStep(k: nat)
    requires k < 7
  {
    && Enabled(LATE_ARM.states[k], LATE_ARM.events[k])
    && LATE_ARM.states[k + 1] == Step(RULES, LATE_ARM.states[k], LATE_ARM.events[k])
  }

  lemma LateArmStarts()
    ensures IsStep(0) && IsStep(1)
  {
    var none: map<int, Session> := map[];
    assert none - {1} == none;
  }

  lemma LateArmIsCancelled()
    ensures IsStep(2)
  {
  }

  lemma LateArmIsInstalled()
    ensures IsStep(3)
  {
    var none: map<int, FullEntry> := map[];
    assert none - {1} == none;
  }

  lemma LateCallThrows()
    ensures IsStep(4)
  {
  }

  lemma LateArmIsAskedFor()
    ensures IsStep(5)
  {
  }

  lemma LateArmIsSpent()
    ensures IsStep(6)
  {
    assert map[1 := ENTRY] - {1} == map[];
  }

  /**
   A call that is cancelled while its safe arm awaits `queryActiveTab` installs the arm after the
   `cancel`, throws, and leaves the arm behind; a later visible-tab request is granted its capture.
   */
  lemma CancelledCallLeavesArm()
    ensures IsTrace(RULES, LATE_ARM)
    ensures LATE_ARM.events[2].EvCancel? && LATE_ARM.states[2].tabs.armedTabs == map[]
    ensures LATE_ARM.states[5].runs[0].pc == Threw(CaptureReplaced) && 1 in LATE_ARM.states[5].tabs.armedTabs
    ensures LATE_ARM.states[7].shotRequests[0].pc == ShotAwaitImage
  {
    LateArmStarts();
    LateArmIsCancelled();
    LateArmIsInstalled();
    LateCallThrows();
    LateArmIsAskedFor();
    LateArmIsSpent();
    forall k | 0 <= k < |LATE_ARM.events|
      ensures Enabled(LATE_ARM.states[k], LATE_ARM.events[k])
      ensures LATE_ARM.states[k + 1] == Step(RULES, LATE_ARM.states[k], LATE_ARM.events[k])
    {
      assert IsStep(k);
    }
  }
}

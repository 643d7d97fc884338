/**
 Which captures can be armed, with and without a session. The handler compares the page it detects on the tab
 with the page named by a full-page arm, without the exception for hotspot pages that safe arms and slices
 have; so it refuses every full-page capture of a hotspot page whose URL is not itself detected as one.
 */
module CaptureHotspot {
  import opened Wrappers
  import opened CaptureModel
  import opened CaptureGenerations
  import opened CaptureCalls
  import opened CaptureFencing
  import opened CaptureFrames
  import opened CapturePages
  import opened CaptureTheorems

  /** Some active tab at this URL passes the handler's checks of a full-page arm for this page. */
  predicate PageAdmits(rules: Rules, url: string, context: Context) {
    && Detects(rules, url, context)
    && if context.pageVersion == HOTSPOT_VERSION then rules.isHttps(url) else rules.detect(url).supported
  }

  /** Some active tab at this URL passes the checks of a safe arm, which takes a hotspot page at its word. */
  predicate SafePageAdmits(rules: Rules, url: string, context: Context) {
    if context.pageVersion == HOTSPOT_VERSION then rules.isHttps(url)
    else rules.detect(url).supported && Detects(rules, url, context)
  }

  /**
   The call is current, the status of its page usable, and the arm it asks for parses and can be let in: for a
   session on the call's own URL, for a call without one on any URL.
   */
  ghost predicate CanBeArmed(rules: Rules, s: State, r: nat, status: PageStatus)
    requires r in s.runs
  {
    var run := s.runs[r];
    && Lookup(s.tabs.generations, run.tab.id) == Some(run.generation) && IsUsable(run, status)
    && (exists arm :: AsksFor(run, status, arm) && rules.parsesArm(arm))
    && if run.session.Some? then PageAdmits(rules, run.tab.url, status.context)
       else exists url :: SafePageAdmits(rules, url, status.context)
  }

  // ---- Which arms are let in ----

  ghost predicate IsAdmissible(rules: Rules, arm: ArmMessage) {
    exists active :: Admits(rules, arm, active)
  }

  function TabAt(tab: int, url: string): BrowserTab {
    BrowserTab(Some(tab), Some(0), Some(url))
  }

  lemma AdmissibleIf(rules: Rules, arm: ArmMessage)
    ensures arm.FullArm? ==> (IsAdmissible(rules, arm) <==> PageAdmits(rules, arm.url, arm.context))
    ensures arm.SafeArm? ==> (IsAdmissible(rules, arm) <==> exists url :: SafePageAdmits(rules, url, arm.context))
  {
    if arm.FullArm? {
      assert Admits(rules, arm, TabAt(arm.tab, arm.url)) <==> PageAdmits(rules, arm.url, arm.context);
    } else {
      if url :| SafePageAdmits(rules, url, arm.context) { assert Admits(rules, arm, TabAt(arm.tab, url)); }
      if active :| Admits(rules, arm, active) { assert SafePageAdmits(rules, active.url.value, arm.context); }
    }
  }

  // ---- Calls that can only fail ----

  /** The arm of the call has been refused or will be, or the call is failing already. */
  ghost predicate Doomed(rules: Rules, pc: StartPc) {
    match pc
    case AwaitActiveTab(arm) => !IsAdmissible(rules, arm)
    case AwaitArmReply(answer) => answer != Replied(true)
    case AwaitDiscard(_) => true
    case Threw(_) => true
    case _ => false
  }

  predicate InstallOf(run: Run, history: History) {
    Install(run.tab.id, run.generation) in history.installs
  }

  ghost predicate IsDoomed(rules: Rules, s: State, r: nat) {
    r in s.runs && Doomed(rules, s.runs[r].pc) && !InstallOf(s.runs[r], s.history)
  }

  lemma Askable(run: Run, status: PageStatus)
    requires IsUsable(run, status)
    ensures AsksFor(run, status, ArmMessageOf(run, status))
    ensures forall arm :: AsksFor(run, status, arm) ==> arm == ArmMessageOf(run, status)
  {
  }

  /** The page status decides: the call awaits the active tab with an admissible latest arm, or is doomed. */
  lemma StatusDecides(rules: Rules, s: State, r: nat, status: PageStatus)
    requires GenerationsOk(s) && r in s.runs
    ensures var s' := StatusReply(rules, s, r, Some(status));
            if CanBeArmed(rules, s, r, status) then
              var arm := ArmMessageOf(s.runs[r], status);
              && s'.runs == s.runs[r := s.runs[r].(pc := AwaitActiveTab(arm))] && IsAdmissible(rules, arm)
              && s'.tabs == s.tabs.(latestArmGenerations :=
                   s.tabs.latestArmGenerations[s.runs[r].tab.id := s.runs[r].generation])
            else Doomed(rules, s'.runs[r].pc)
  {
    StatusSplits(rules, s, r, status);
    if IsUsable(s.runs[r], status) {
      Askable(s.runs[r], status);
      AdmissibleIf(rules, ArmMessageOf(s.runs[r], status));
    }
  }

  lemma ReplyDooms(rules: Rules, s: State, r: nat)
    requires r in s.runs && s.runs[r].pc.AwaitArmReply? && Doomed(rules, s.runs[r].pc)
    ensures Doomed(rules, ArmReply(s, r).runs[r].pc)
  {
    FailFails(s, r, BrowserFailure);
    FailFails(s, r, CaptureReplaced);
    FailFails(s, r, NotArmed);
  }

  lemma ActiveTabDooms(rules: Rules, s: State, r: nat, reply: Option<BrowserTab>, now: int)
    requires r in s.runs && s.runs[r].pc.AwaitActiveTab? && Doomed(rules, s.runs[r].pc)
    ensures var s' := ArmActiveTab(rules, s, r, reply, now);
            Doomed(rules, s'.runs[r].pc) && s'.history == s.history
  {
    if reply.Some? { MatchesIfAdmitted(rules, s.runs[r].pc.arm, reply.value); }
  }

  lemma PcStaysDoomed(rules: Rules, s: State, e: Event, r: nat)
    requires Enabled(s, e) && r in s.runs && Doomed(rules, s.runs[r].pc)
    ensures r in Step(rules, s, e).runs && Doomed(rules, Step(rules, s, e).runs[r].pc)
  {
    if e.EvArmReply? && e.r == r {
      ReplyDooms(rules, s, r);
    } else if e.EvArmActiveTab? && e.r == r {
      ActiveTabDooms(rules, s, r, e.active, e.now);
    } else if !(e.EvDiscarded? && e.r == r) {
      OthersWait(rules, s, e, r);
    }
  }

  /** Events of other calls, and requests, leave the call where it is. */
  lemma OthersWait(rules: Rules, s: State, e: Event, r: nat)
    requires Enabled(s, e) && r in s.runs && Doomed(rules, s.runs[r].pc)
    requires (e.EvArmReply? || e.EvArmActiveTab? || e.EvDiscarded?) ==> e.r != r
    ensures r in Step(rules, s, e).runs && Step(rules, s, e).runs[r] == s.runs[r]
  {
    if Resumes(e).Some? {
      ResumeFrame(rules, s, e);
    } else if IsRequestEvent(e) {
      RequestsNarrow(rules, s, e);
    } else if e.EvStart? {
      StartFrame(s, e.r, e.mode, e.tab, e.uuid);
    }
  }

  lemma StaysUninstalled(rules: Rules, s: State, e: Event, r: nat)
    requires GenerationsOk(s) && Enabled(s, e) && IsDoomed(rules, s, r)
    ensures !InstallOf(s.runs[r], Step(rules, s, e).history)
  {
    if Resumes(e).Some? {
      ResumeFrame(rules, s, e);
    } else if IsRequestEvent(e) {
      RequestsInstallNothing(rules, s, e);
    } else if e.EvStart? {
      StartFrame(s, e.r, e.mode, e.tab, e.uuid);
    } else if e.EvArmActiveTab? {
      if e.r == r {
        ActiveTabDooms(rules, s, r, e.active, e.now);
      } else {
        assert RunOk(s.tabs, s.history.ids, s.runs[e.r]);
        assert Apart(s.runs[e.r], s.runs[r]);
      }
    }
  }

  lemma DoomedStep(rules: Rules, s: State, e: Event, r: nat)
    requires GenerationsOk(s) && Enabled(s, e) && IsDoomed(rules, s, r)
    ensures IsDoomed(rules, Step(rules, s, e), r)
  {
    RunProgress(rules, s, e, r);
    PcStaysDoomed(rules, s, e, r);
    StaysUninstalled(rules, s, e, r);
  }

  lemma {:induction false} DoomedForever(rules: Rules, s: State, events: seq<Event>, end: State, r: nat)
    requires GenerationsOk(s) && Leads(rules, s, events, end) && IsDoomed(rules, s, r)
    ensures IsDoomed(rules, end, r)
    decreases |events|
  {
    if events != [] {
      GenerationsStep(rules, s, events[0]);
      DoomedStep(rules, s, events[0], r);
      DoomedForever(rules, Step(rules, s, events[0]), events[1..], end, r);
    }
  }

  // ---- Calls that can succeed ----

  /** The events arm the call's tab and let it return. */
  ghost predicate Succeeds(rules: Rules, s: State, events: seq<Event>, end: State, r: nat) {
    Leads(rules, s, events, end) && r in end.runs && end.runs[r].pc.Returned? && InstallOf(end.runs[r], end.history)
  }

  ghost predicate CanSucceed(rules: Rules, s: State, r: nat) {
    exists events, end :: Succeeds(rules, s, events, end, r)
  }

  /** Whatever happens, the call arms nothing and does not return. */
  ghost predicate MustFail(rules: Rules, s: State, r: nat) {
    forall events, end | Leads(rules, s, events, end) ::
      r in end.runs && !end.runs[r].pc.Returned? && !InstallOf(end.runs[r], end.history)
  }

  /** With its arm the latest and let in by this tab, an awaiting current call succeeds in three steps. */
  lemma ArmedCallReturns(rules: Rules, s: State, r: nat, active: BrowserTab)
    requires r in s.runs && s.runs[r].pc.AwaitActiveTab? && IsCurrent(s.tabs, s.runs[r].tab.id, s.runs[r].generation)
    requires var arm := s.runs[r].pc.arm;
             && ArmBelongsTo(arm, s.runs[r]) && Lookup(s.tabs.latestArmGenerations, arm.tab) == Some(arm.generation)
             && ArmMatchesActiveTab(rules, arm, active)
    ensures CanSucceed(rules, s, r)
  {
    var e1, e2, e3 := EvArmActiveTab(r, Some(active), s.clock), EvArmReply(r), EvContent(r, Replied(true));
    var s1 := Step(rules, s, e1);
    var s2 := Step(rules, s1, e2);
    var s3 := Step(rules, s2, e3);
    assert s1.runs[r] == s.runs[r].(pc := AwaitArmReply(Replied(true))) && s1.tabs.generations == s.tabs.generations;
    assert s1.history.installs[|s.history.installs|] == Install(s.runs[r].tab.id, s.runs[r].generation);
    assert s2 == SetPc(s1, r, AwaitContent) && s3 == SetPc(s2, r, Returned);
    assert Leads(rules, s3, [], s3) && Leads(rules, s2, [e3], s3);
    assert [e2, e3][1..] == [e3] && Leads(rules, s1, [e2, e3], s3);
    assert [e1, e2, e3][1..] == [e2, e3] && Leads(rules, s, [e1, e2, e3], s3);
    assert Succeeds(rules, s, [e1, e2, e3], s3, r);
  }

  lemma ArmableSucceeds(rules: Rules, s: State, r: nat, status: PageStatus)
    requires GenerationsOk(s) && r in s.runs && CanBeArmed(rules, s, r, status)
    ensures CanSucceed(rules, StatusReply(rules, s, r, Some(status)), r)
  {
    var arm := ArmMessageOf(s.runs[r], status);
    StatusDecides(rules, s, r, status);
    var active :| Admits(rules, arm, active);
    MatchesIfAdmitted(rules, arm, active);
    assert RunOk(s.tabs, s.history.ids, s.runs[r]);
    ArmedCallReturns(rules, StatusReply(rules, s, r, Some(status)), r, active);
  }

  lemma UnarmableFails(rules: Rules, s: State, r: nat, status: PageStatus)
    requires Inv(s) && r in s.runs && s.runs[r].pc.AwaitStatus? && !CanBeArmed(rules, s, r, status)
    ensures MustFail(rules, StatusReply(rules, s, r, Some(status)), r)
  {
    var s' := StatusReply(rules, s, r, Some(status));
    StatusDecides(rules, s, r, status);
    StatusFrame(rules, s, r, Some(status));
    StatusKeeps(rules, s, r, Some(status));
    assert ArmUndecided(s.runs[r]);
    forall events, end | Leads(rules, s', events, end)
      ensures r in end.runs && !end.runs[r].pc.Returned? && !InstallOf(end.runs[r], end.history)
    {
      DoomedForever(rules, s', events, end, r);
    }
  }

  /**
   A call that learns its page status can still arm its tab and return if and only if it is current, the status
   is usable, its arm parses, and some active tab lets the arm in: for a full-page call this means that the page
   detected at the call's own URL is the one the status names. Otherwise it never arms anything and never returns.
   */
  lemma CallArmed(rules: Rules, t: Trace, i: nat)
    requires IsTrace(rules, t) && i < |t.events| && t.events[i].EvStatus? && t.events[i].status.Some?
    ensures var r, status := t.events[i].r, t.events[i].status.value;
            && (CanBeArmed(rules, t.states[i], r, status) <==> CanSucceed(rules, t.states[i + 1], r))
            && (CanBeArmed(rules, t.states[i], r, status) || MustFail(rules, t.states[i + 1], r))
  {
    var r, status := t.events[i].r, t.events[i].status.value;
    Invariant(rules, t, i);
    if CanBeArmed(rules, t.states[i], r, status) {
      ArmableSucceeds(rules, t.states[i], r, status);
    } else {
      UnarmableFails(rules, t.states[i], r, status);
      MustFailExcludes(rules, t.states[i + 1], r);
    }
  }

  lemma MustFailExcludes(rules: Rules, s: State, r: nat)
    requires MustFail(rules, s, r)
    ensures !CanSucceed(rules, s, r)
  {
  }

  /**
   If the page detected at the call's URL is not a hotspot page, a full-page call whose page status names
   one never has an arm installed and never returns normally.
   */
  lemma HotspotCapturesFail(rules: Rules, t: Trace, i: nat, j: nat)
    requires IsTrace(rules, t) && i < j < |t.states|
    requires var e := t.events[i];
             && e.EvStatus? && e.status.Some? && e.status.value.context.pageVersion == HOTSPOT_VERSION
             && t.states[i].runs[e.r].session.Some?
             && rules.detect(t.states[i].runs[e.r].tab.url).pageVersion != HOTSPOT_VERSION
    ensures var r, s := t.events[i].r, t.states[j];
            && r in s.runs && !s.runs[r].pc.Returned?
            && Install(s.runs[r].tab.id, s.runs[r].generation) !in s.history.installs
  {
    var r := t.events[i].r;
    CallArmed(rules, t, i);
    assert !CanBeArmed(rules, t.states[i], r, t.events[i].status.value);
    TraceLeads(rules, t, i + 1, j);
    assert InstallOf(t.states[j].runs[r], t.states[j].history) <==>
           Install(t.states[j].runs[r].tab.id, t.states[j].runs[r].generation) in t.states[j].history.installs;
  }

  // ---- A hotspot capture that is refused ----

  const URL := "https://hotspot"
  const CONTEXT := Context("platform", HOTSPOT_VERSION, "signature")
  const VIEWPORT := Viewport(800, 600, 1.0)
  const STATUS := PageStatus(true, CONTEXT, Some(VIEWPORT), Some(0.0), Some(URL))
  /** Page detection that knows no hotspot page. */
  const RULES := Rules(_ => Detected(false, None, "unknown"), _ => true, _ => true)
  const SESSION := Session("id", 1)
  const RUN := Run(SupportedTab(1, 1, URL), 1, Some(SESSION), AwaitStatus)
  const ARM := FullArm(1, 1, CONTEXT, "id", URL, VIEWPORT, 0.0)

  /** One full-page call on tab 1. */
  function Scene(pc: StartPc, sessions: map<int, Session>, latest: map<int, nat>): State {
    State(Tabs(map[1 := 1], sessions, map[], map[], latest), map[0 := RUN.(pc := pc)], map[], map[],
          History({"id"}, map[], [], [], []), 0)
  }

  const REFUSED := Trace(
    [ Initial(0),
      Scene(AwaitStatus, map[1 := SESSION], map[]),
      Scene(AwaitActiveTab(ARM), map[1 := SESSION], map[1 := 1]),
      Scene(AwaitArmReply(Replied(false)), map[1 := SESSION], map[1 := 1]),
      Scene(AwaitDiscard(NotArmed), map[], map[1 := 1]),
      Scene(Threw(NotArmed), map[], map[1 := 1]) ],
    [ EvStart(0, FullPage, RUN.tab, true, "id"),
      EvStatus(0, Some(STATUS)),
      EvArmActiveTab(0, Some(TabAt(1, URL)), 0),
      EvArmReply(0),
      EvDiscarded(0) ])

  ghost predicate IsStep(k: nat)
    requires k < 5
  {
    && Enabled(REFUSED.states[k], REFUSED.events[k])
    && REFUSED.states[k + 1] == Step(RULES, REFUSED.states[k], REFUSED.events[k])
  }

  lemma RefusedStarts()
    ensures IsStep(0)
  {
    var none: set<string> := {};
    assert none + {"id"} == {"id"};
  }

  lemma RefusedAsks()
    ensures IsStep(1) && IsStep(2)
  {
  }

  lemma RefusedEnds()
    ensures IsStep(3) && IsStep(4)
  {
    assert map[1 := SESSION] - {1} == map[];
  }

  /**
   A hotspot capture started on an HTTPS page that is not a supported one: the page reports itself as
   a hotspot page, the arm is refused although the tab is active and unchanged, and the call throws.
   */
  lemma HotspotCaptureRefused()
    ensures IsTrace(RULES, REFUSED)
    ensures REFUSED.events[0].allowHotspot && REFUSED.events[1].status.value.context.pageVersion == HOTSPOT_VERSION
    ensures RULES.detect(REFUSED.states[1].runs[0].tab.url).pageVersion != HOTSPOT_VERSION
    ensures REFUSED.states[4].runs[0].pc == AwaitDiscard(NotArmed) && REFUSED.states[5].runs[0].pc == Threw(NotArmed)
  {
    RefusedStarts();
    RefusedAsks();
    RefusedEnds();
    forall k | 0 <= k < |REFUSED.events|
      ensures Enabled(REFUSED.states[k], REFUSED.events[k])
      ensures REFUSED.states[k + 1] == Step(RULES, REFUSED.states[k], REFUSED.events[k])
    {
      assert IsStep(k);
    }
  }
}

/**
 The guarantees of the capture protocol, for every trace: every interleaving of starts, cancels,
 END messages, late replies, slice requests and visible-tab requests.
 */
module CaptureTheorems {
  import opened Wrappers
  import opened CaptureModel
  import opened CaptureGenerations
  import opened CaptureOwnership
  import opened CaptureFencing
  import opened CaptureSlices
  import opened CaptureFrames

  ghost predicate Inv(s: State) {
    GenerationsOk(s) && OwnershipOk(s) && FencingOk(s) && SlicesOk(s)
  }

  lemma InvStep(rules: Rules, s: State, e: Event)
    requires Inv(s) && Enabled(s, e)
    ensures Inv(Step(rules, s, e))
  {
    GenerationsStep(rules, s, e);
    OwnershipStep(rules, s, e);
    FencingStep(rules, s, e);
    SlicesStep(rules, s, e);
  }

  /** Every state of every trace satisfies the four invariants. */
  lemma {:induction false} Invariant(rules: Rules, t: Trace, i: nat)
    requires IsTrace(rules, t) && i < |t.states|
    ensures Inv(t.states[i])
  {
    if i == 0 {
      GenerationsInitially(t.states[0].clock);
      OwnershipInitially(t.states[0].clock);
      FencingInitially(t.states[0].clock);
      SlicesInitially(t.states[0].clock);
    } else {
      Invariant(rules, t, i - 1);
      InvStep(rules, t.states[i - 1], t.events[i - 1]);
    }
  }

  // ---- Reachable states ----

  ghost predicate EndsIn(rules: Rules, t: Trace, s: State) {
    IsTrace(rules, t) && t.states[|t.events|] == s
  }

  ghost predicate Reachable(rules: Rules, s: State) {
    exists t :: EndsIn(rules, t, s)
  }

  lemma ReachableInitially(rules: Rules, clock: int)
    ensures Reachable(rules, Initial(clock))
  {
    assert EndsIn(rules, Trace([Initial(clock)], []), Initial(clock));
  }

  lemma ReachableStep(rules: Rules, s: State, e: Event)
    requires Reachable(rules, s) && Enabled(s, e)
    ensures Reachable(rules, Step(rules, s, e))
  {
    var t :| EndsIn(rules, t, s);
    var t' := Trace(t.states + [Step(rules, s, e)], t.events + [e]);
    assert EndsIn(rules, t', Step(rules, s, e));
  }

  lemma ReachableInv(rules: Rules, s: State)
    requires Reachable(rules, s)
    ensures Inv(s)
  {
    var t :| EndsIn(rules, t, s);
    Invariant(rules, t, |t.events|);
  }

  // ---- Continuations ----

  /** The events lead from one state to the other. */
  ghost predicate Leads(rules: Rules, s: State, events: seq<Event>, end: State)
    decreases |events|
  {
    if events == [] then s == end
    else Enabled(s, events[0]) && Leads(rules, Step(rules, s, events[0]), events[1..], end)
  }

  lemma {:induction false} LeadsThrough(
      rules: Rules, s: State, before: seq<Event>, mid: State, after: seq<Event>, end: State)
    requires Leads(rules, s, before, mid) && Leads(rules, mid, after, end)
    ensures Leads(rules, s, before + after, end)
    decreases |before|
  {
    if before == [] {
      assert before + after == after;
    } else {
      assert (before + after)[1..] == before[1..] + after;
      LeadsThrough(rules, Step(rules, s, before[0]), before[1..], mid, after, end);
    }
  }

  /** Each part of a trace leads from its first state to its last. */
  lemma {:induction false} TraceLeads(rules: Rules, t: Trace, i: nat, j: nat)
    requires IsTrace(rules, t) && i <= j < |t.states|
    ensures Leads(rules, t.states[i], t.events[i..j], t.states[j])
    decreases j - i
  {
    if i < j {
      TraceLeads(rules, t, i + 1, j);
      assert t.events[i..j][1..] == t.events[i + 1..j];
    }
  }

  // ---- Armed sessions are answered for ----

  ghost predicate QuietOn(s: State, tab: int) {
    forall r | r in s.runs && s.runs[r].tab.id == tab :: !InFlight(s.runs[r])
  }

  /**
   An armed full-page session is the recorded one, or a superseded call in flight is about to
   discard it; with no `startCapture` in flight on the tab it is the recorded one.
   */
  lemma ArmedSessionsAccounted(rules: Rules, t: Trace, i: nat, tab: int)
    requires IsTrace(rules, t) && i < |t.states| && tab in t.states[i].tabs.armedFullPageTabs
    ensures var s := t.states[i]; ArmIsRecorded(s.tabs, tab) || ArmIsOwned(s.tabs, s.runs, tab)
    ensures QuietOn(t.states[i], tab) ==> ArmIsRecorded(t.states[i].tabs, tab)
  {
    Invariant(rules, t, i);
  }

  /**
   The owner of an unrecorded arm does discard it: no other event moves the call, and its own next
   step leaves the session disarmed and the call throwing.
   */
  lemma OwnerDiscards(rules: Rules, s: State, r: nat, tab: int, id: string, e: Event)
    requires r in s.runs && Owns(s.tabs, s.runs[r], tab, id) && Enabled(s, e)
    ensures e != EvArmReply(r) ==> r in Step(rules, s, e).runs && Step(rules, s, e).runs[r] == s.runs[r]
    ensures e == EvArmReply(r) ==>
              var s' := Step(rules, s, e);
              && s'.runs[r].pc == AwaitDiscard(CaptureReplaced)
              && (tab in s'.tabs.armedFullPageTabs ==> s'.tabs.armedFullPageTabs[tab].captureSessionId != id)
  {
    if e != EvArmReply(r) {
      if Resumes(e).Some? {
        ResumeFrame(rules, s, e);
      } else if IsRequestEvent(e) {
        RequestsNarrow(rules, s, e);
      }
    }
  }

  // ---- Superseded calls throw ----

  /** The event bumps the generation of the tab of this call. */
  predicate Supersedes(rules: Rules, e: Event, run: Run) {
    || e.EvCancel?
    || (e.EvStart? && e.tab.id == run.tab.id
        && (IsSupportedTab(rules, e.tab) || (e.allowHotspot && rules.isHttps(e.tab.url))))
  }

  predicate IsSuperseded(s: State, r: nat) {
    && r in s.runs && s.runs[r].tab.id in s.tabs.generations
    && s.runs[r].generation < s.tabs.generations[s.runs[r].tab.id]
    && !s.runs[r].pc.Returned?
  }

  lemma GenerationsGrow(rules: Rules, s: State, e: Event, tab: int)
    requires Enabled(s, e) && tab in s.tabs.generations
    ensures var s' := Step(rules, s, e);
            tab in s'.tabs.generations && s.tabs.generations[tab] <= s'.tabs.generations[tab]
  {
    if Resumes(e).Some? {
      ResumeFrame(rules, s, e);
    } else if IsRequestEvent(e) {
      RequestsNarrow(rules, s, e);
    } else if e.EvStart? {
      StartFrame(s, e.r, e.mode, e.tab, e.uuid);
    }
  }

  /** A call keeps its tab, generation and session; each of its at most six steps brings it closer to its end. */
  lemma RunProgress(rules: Rules, s: State, e: Event, r: nat)
    requires Enabled(s, e) && r in s.runs
    ensures var s' := Step(rules, s, e);
            && r in s'.runs
            && s'.runs[r] == s.runs[r].(pc := s'.runs[r].pc)
            && (s'.runs[r] == s.runs[r] || Rank(s'.runs[r].pc) < Rank(s.runs[r].pc))
  {
    if Resumes(e).Some? {
      ResumeFrame(rules, s, e);
    } else if IsRequestEvent(e) {
      RequestsNarrow(rules, s, e);
    } else if e.EvStart? {
      StartFrame(s, e.r, e.mode, e.tab, e.uuid);
    }
  }

  lemma SupersededStep(rules: Rules, s: State, e: Event, r: nat)
    requires Enabled(s, e) && IsSuperseded(s, r)
    ensures IsSuperseded(Step(rules, s, e), r)
  {
    RunProgress(rules, s, e, r);
    GenerationsGrow(rules, s, e, s.runs[r].tab.id);
  }

  lemma {:induction false} SupersededForever(rules: Rules, t: Trace, i: nat, j: nat, r: nat)
    requires IsTrace(rules, t) && i <= j < |t.states| && IsSuperseded(t.states[i], r)
    ensures IsSuperseded(t.states[j], r)
  {
    if i < j {
      SupersededForever(rules, t, i, j - 1, r);
      SupersededStep(rules, t.states[j - 1], t.events[j - 1], r);
    }
  }

  /**
   A call in flight when a newer one begins on its tab, or when `cancel` is called, never returns
   normally: in every later state it is still in flight or has thrown.
   */
  lemma SupersededCallsThrow(rules: Rules, t: Trace, i: nat, j: nat, r: nat)
    requires IsTrace(rules, t) && i < j < |t.states|
    requires r in t.states[i].runs && InFlight(t.states[i].runs[r])
    requires Supersedes(rules, t.events[i], t.states[i].runs[r])
    ensures r in t.states[j].runs && (InFlight(t.states[j].runs[r]) || t.states[j].runs[r].pc.Threw?)
  {
    Invariant(rules, t, i);
    var s := t.states[i];
    assert RunOk(s.tabs, s.history.ids, s.runs[r]);
    RunProgress(rules, s, t.events[i], r);
    assert IsSuperseded(t.states[i + 1], r);
    SupersededForever(rules, t, i + 1, j, r);
  }

  /** No call in flight is ever stuck: some answer of its environment moves it. */
  lemma CallsCanMove(rules: Rules, s: State, r: nat) returns (e: Event)
    requires r in s.runs && InFlight(s.runs[r])
    ensures Enabled(s, e) && Rank(Step(rules, s, e).runs[r].pc) < Rank(s.runs[r].pc)
  {
    match s.runs[r].pc
    case AwaitPreviousDiscard => e := EvPreviousDiscarded(r);
    case AwaitStatus => e := EvStatus(r, None);
    case AwaitActiveTab(_) => e := EvArmActiveTab(r, None, s.clock);
    case AwaitArmReply(_) => e := EvArmReply(r);
    case AwaitContent => e := EvContent(r, Rejected);
    case AwaitDiscard(_) => e := EvDiscarded(r);
  }

  /** At every await, a recorded session has the current generation of its tab. */
  lemma RecordedSessionsAreCurrent(rules: Rules, t: Trace, i: nat, tab: int)
    requires IsTrace(rules, t) && i < |t.states| && tab in t.states[i].tabs.fullPageSessions
    ensures IsCurrent(t.states[i].tabs, tab, t.states[i].tabs.fullPageSessions[tab].generation)
  {
    Invariant(rules, t, i);
  }

  // ---- After a cancel ----

  ghost predicate NoSessions(tabs: Tabs) {
    forall tab :: tab !in tabs.fullPageSessions
  }

  lemma NoSessionWithoutStart(rules: Rules, s: State, e: Event)
    requires Enabled(s, e) && NoSessions(s.tabs) && !e.EvStart?
    ensures NoSessions(Step(rules, s, e).tabs)
  {
    if Resumes(e).Some? {
      ResumeFrame(rules, s, e);
    } else if IsRequestEvent(e) {
      RequestsNarrow(rules, s, e);
    } else if e.EvArmActiveTab? {
      ArmingFrame(rules, s, e.r, e.active, e.now);
    }
  }

  lemma CancelForgets(rules: Rules, s: State)
    ensures NoSessions(Step(rules, s, EvCancel).tabs)
  {
  }

  lemma {:induction false} NoSessionAfterCancel(rules: Rules, t: Trace, i: nat, j: nat)
    requires IsTrace(rules, t) && i < j < |t.states| && t.events[i].EvCancel?
    requires forall k | i < k < j :: !t.events[k].EvStart?
    ensures NoSessions(t.states[j].tabs)
  {
    if i + 1 == j {
      CancelForgets(rules, t.states[i]);
    } else {
      NoSessionAfterCancel(rules, t, i, j - 1);
      NoSessionWithoutStart(rules, t.states[j - 1], t.events[j - 1]);
    }
  }

  /** Once the calls in flight at a `cancel` have ended, no full-page session is armed on any tab. */
  lemma CancelDisarmsFullPages(rules: Rules, t: Trace, i: nat, j: nat)
    requires IsTrace(rules, t) && i < j < |t.states| && t.events[i].EvCancel?
    requires forall k | i < k < j :: !t.events[k].EvStart?
    requires forall r | r in t.states[j].runs :: !InFlight(t.states[j].runs[r])
    ensures forall tab :: tab !in t.states[j].tabs.armedFullPageTabs
  {
    NoSessionAfterCancel(rules, t, i, j);
    Invariant(rules, t, j);
    var s := t.states[j];
    assert forall tab | tab in s.tabs.armedFullPageTabs :: !ArmIsRecorded(s.tabs, tab);
    assert forall tab | tab in s.tabs.armedFullPageTabs :: !ArmIsOwned(s.tabs, s.runs, tab);
  }

  // ---- Fencing ----

  /**
   The generations that install an arm on a tab increase, no tab is armed in both ways, and every
   installed safe arm is spent on at most one visible-tab capture.
   */
  lemma ArmsAreFenced(rules: Rules, t: Trace, i: nat)
    requires IsTrace(rules, t) && i < |t.states|
    ensures var s := t.states[i];
            && InstallsIncrease(s.history.installs)
            && (forall tab | tab in s.tabs.armedTabs :: tab !in s.tabs.armedFullPageTabs)
            && NoRepeats(s.history.shots) && (forall x | x in s.history.shots :: x in s.history.installs)
  {
    Invariant(rules, t, i);
  }

  // ---- Slices ----

  /** With 500 ms between captures and a lifetime of 20 s, a session has at most 40 slices. */
  lemma {:induction false} SpacingBounds(arm: ArmRecord, xs: seq<Slice>, k: nat)
    requires GoodSlices(arm, xs) && k < |xs|
    ensures arm.expiresAt - FULL_PAGE_LIFETIME_MS + k * MINIMUM_SLICE_INTERVAL_MS <= xs[k].checkedAt
  {
    assert GoodSlice(arm, xs, k);
    if k > 0 {
      SpacingBounds(arm, xs, k - 1);
      assert GoodSlice(arm, xs, k - 1);
    }
  }

  /**
   The images returned for one armed session: numbered 0, 1, 2, ... without gap or repeat, never
   scrolling back from the armed position, each checked before the deadline. The timing alone
   allows 40 of them; the parser's limit on sequence numbers makes it 30.
   */
  lemma SlicesAreOrderedAndBounded(rules: Rules, t: Trace, i: nat, id: string)
    requires IsTrace(rules, t) && i < |t.states| && id in t.states[i].history.arms
    ensures var s := t.states[i]; var xs := SlicesOf(s.history.slices, id);
            && GoodSlices(s.history.arms[id], xs)
            && (|xs| - 1) * MINIMUM_SLICE_INTERVAL_MS < FULL_PAGE_LIFETIME_MS
            && |xs| <= 40 && |xs| <= 30
  {
    Invariant(rules, t, i);
    var s := t.states[i];
    var xs := SlicesOf(s.history.slices, id);
    if xs != [] {
      SpacingBounds(s.history.arms[id], xs, |xs| - 1);
      assert GoodSlice(s.history.arms[id], xs, |xs| - 1);
    }
  }

  /** At most one `captureVisibleTab` is in flight for a full-page session. */
  lemma OneCaptureInFlight(rules: Rules, t: Trace, i: nat, q: nat, q': nat)
    requires IsTrace(rules, t) && i < |t.states|
    requires var requests := t.states[i].sliceRequests;
             && q in requests && q' in requests
             && requests[q].pc.SliceAwaitImage? && requests[q'].pc.SliceAwaitImage?
             && requests[q].message.captureSessionId == requests[q'].message.captureSessionId
    ensures q == q'
  {
    Invariant(rules, t, i);
    var s := t.states[i];
    assert RequestOk(s.tabs.armedFullPageTabs, s.history, s.sliceRequests[q], s.clock);
    assert RequestOk(s.tabs.armedFullPageTabs, s.history, s.sliceRequests[q'], s.clock);
    assert q != q' ==> Exclusive(s.sliceRequests[q], s.sliceRequests[q']);
  }

  /** This capture has lost its armed object, which cannot come back. */
  predicate LostItsArm(s: State, q: nat, tab: int, g: nat) {
    && q in s.sliceRequests && s.sliceRequests[q].tab.id == Some(tab)
    && Install(tab, g) in s.history.installs && !IsArmed(s.tabs, tab, g)
    && (s.sliceRequests[q].pc.SliceRefused?
        || (s.sliceRequests[q].pc.SliceAwaitImage? && s.sliceRequests[q].pc.armGeneration == g))
  }

  /** Only the reply of `queryActiveTab` to an awaiting arm installs anything. */
  lemma OthersInstallNothing(rules: Rules, s: State, e: Event)
    requires Enabled(s, e) && !e.EvArmActiveTab?
    ensures ArmsNarrow(s.tabs, Step(rules, s, e).tabs) && Step(rules, s, e).history.installs == s.history.installs
  {
    if Resumes(e).Some? {
      ResumeFrame(rules, s, e);
    } else if IsRequestEvent(e) {
      RequestsNarrow(rules, s, e);
      RequestsInstallNothing(rules, s, e);
    } else if e.EvStart? {
      StartFrame(s, e.r, e.mode, e.tab, e.uuid);
    } else {
      CancelFrame(s.tabs);
    }
  }

  lemma NewArmIsNew(rules: Rules, s: State, r: nat, reply: Option<BrowserTab>, now: int, tab: int, g: nat)
    requires Inv(s) && r in s.runs && s.runs[r].pc.AwaitActiveTab?
    requires Install(tab, g) in s.history.installs && !IsArmed(s.tabs, tab, g)
    ensures var s' := ArmActiveTab(rules, s, r, reply, now);
            Install(tab, g) in s'.history.installs && !IsArmed(s'.tabs, tab, g)
  {
  }

  lemma ArmNeverReturns(rules: Rules, s: State, e: Event, tab: int, g: nat)
    requires Inv(s) && Enabled(s, e) && Install(tab, g) in s.history.installs && !IsArmed(s.tabs, tab, g)
    ensures Install(tab, g) in Step(rules, s, e).history.installs && !IsArmed(Step(rules, s, e).tabs, tab, g)
  {
    if e.EvArmActiveTab? {
      NewArmIsNew(rules, s, e.r, e.active, e.now, tab, g);
    } else {
      OthersInstallNothing(rules, s, e);
    }
  }

  /** A late capture without its arm ends in a refusal. */
  lemma LostShotRefused(s: State, p: nat, image: bool, now: int, later: int, q: nat, tab: int, g: nat)
    requires LostItsArm(s, q, tab, g)
    requires p in s.sliceRequests && s.sliceRequests[p].pc.SliceAwaitImage?
    ensures var s' := SliceShot(s, p, image, now, later);
            && q in s'.sliceRequests
            && s'.sliceRequests[q] == if p == q then s.sliceRequests[q].(pc := SliceRefused) else s.sliceRequests[q]
  {
  }

  lemma LostCaptureMoves(rules: Rules, s: State, e: Event, q: nat, tab: int, g: nat)
    requires Enabled(s, e) && LostItsArm(s, q, tab, g)
    requires e.EvSliceActiveTab? || e.EvSliceShot?
    ensures var s' := Step(rules, s, e);
            && q in s'.sliceRequests && s'.sliceRequests[q].tab == s.sliceRequests[q].tab
            && (s'.sliceRequests[q].pc == s.sliceRequests[q].pc || s'.sliceRequests[q].pc.SliceRefused?)
  {
    if e.EvSliceShot? {
      LostShotRefused(s, e.q, e.image, e.now, e.later, q, tab, g);
    }
  }

  lemma OtherStepsKeepRequest(rules: Rules, s: State, e: Event, q: nat)
    requires Enabled(s, e) && q in s.sliceRequests && !e.EvSliceActiveTab? && !e.EvSliceShot?
    ensures q in Step(rules, s, e).sliceRequests && Step(rules, s, e).sliceRequests[q] == s.sliceRequests[q]
  {
    if Resumes(e).Some? {
      ResumeFrame(rules, s, e);
    } else if e.EvStart? {
      StartFrame(s, e.r, e.mode, e.tab, e.uuid);
    }
  }

  lemma LostArmStep(rules: Rules, s: State, e: Event, q: nat, tab: int, g: nat)
    requires Inv(s) && Enabled(s, e) && LostItsArm(s, q, tab, g)
    ensures LostItsArm(Step(rules, s, e), q, tab, g)
  {
    ArmNeverReturns(rules, s, e, tab, g);
    if e.EvSliceActiveTab? || e.EvSliceShot? {
      LostCaptureMoves(rules, s, e, q, tab, g);
    } else {
      OtherStepsKeepRequest(rules, s, e, q);
    }
  }

  /**
   No image is returned for a capture whose armed object has been replaced, ended or dropped while
   it was in flight, however late the capture finishes.
   */
  lemma {:induction false} LostArmsGetNoImage(rules: Rules, t: Trace, i: nat, j: nat, q: nat, tab: int, g: nat)
    requires IsTrace(rules, t) && i <= j < |t.states| && LostItsArm(t.states[i], q, tab, g)
    ensures LostItsArm(t.states[j], q, tab, g)
    ensures !t.states[j].sliceRequests[q].pc.SliceImage?
  {
    if i < j {
      LostArmsGetNoImage(rules, t, i, j - 1, q, tab, g);
      Invariant(rules, t, j - 1);
      LostArmStep(rules, t.states[j - 1], t.events[j - 1], q, tab, g);
    }
  }
}

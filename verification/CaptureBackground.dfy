/**
 The two closures of background.ts as objects with the fields they mutate. Each method is the code
 between two awaits, written as the source writes it; its postcondition says that it is one step of
 the transition system, so every theorem about traces holds of any sequence of these calls.
 */
module CaptureBackground {
  import opened Wrappers
  import opened CaptureModel
  import opened CaptureGenerations
  import opened CaptureFencing
  import opened CaptureSlices
  import opened CaptureTheorems

  /** An entry of `armedFullPageTabs`: an object compared by reference and updated in place. */
  class ArmedFullPageCapture {
    const tab: int
    const armGeneration: nat
    const expiresAt: int
    const captureSessionId: string
    const context: Context
    const url: string
    const viewport: Viewport
    var nextSequence: nat
    var lastScrollY: real
    var lastCaptureAt: Option<int>
    var inFlight: bool

    ghost function View(): (e: FullEntry)
      reads this
      ensures e.armGeneration == armGeneration && e.captureSessionId == captureSessionId
    {
      FullEntry(armGeneration, expiresAt, captureSessionId, context, url, viewport,
                nextSequence, lastScrollY, lastCaptureAt, inFlight)
    }

    constructor (arm: ArmMessage, expiresAt: int)
      requires arm.FullArm?
      ensures tab == arm.tab
      ensures View() == FullEntry(arm.generation, expiresAt, arm.captureSessionId, arm.context, arm.url, arm.viewport,
                                  0, arm.scrollY, None, false)
    {
      this.tab, this.armGeneration, this.expiresAt := arm.tab, arm.generation, expiresAt;
      this.captureSessionId, this.context, this.url, this.viewport :=
        arm.captureSessionId, arm.context, arm.url, arm.viewport;
      this.nextSequence, this.lastScrollY, this.lastCaptureAt, this.inFlight := 0, arm.scrollY, None, false;
    }

    /** A capture of this session starts. */
    method Begin()
      modifies this`inFlight
      ensures View() == old(View()).(inFlight := true)
    {
      inFlight := true;
    }

    /** It has returned an image in time. */
    method Complete(scrollY: real, now: int)
      modifies this
      ensures View() == old(View()).(inFlight := false, nextSequence := old(nextSequence) + 1,
                                     lastScrollY := scrollY, lastCaptureAt := Some(now))
    {
      inFlight := false;
      nextSequence := nextSequence + 1;
      lastScrollY := scrollY;
      lastCaptureAt := Some(now);
    }
  }

  class Background {
    const rules: Rules

    // createCaptureCoordinator
    var generations: map<int, nat>
    var fullPageSessions: map<int, Session>

    // createBackgroundMessageHandler
    var armedTabs: map<int, SafeEntry>
    var armedFullPageTabs: map<int, ArmedFullPageCapture>
    var latestArmGenerations: map<int, nat>

    // The suspended calls; `held` is the local variable `armed` of a slice request.
    var runs: map<nat, Run>
    var sliceRequests: map<nat, SliceRequest>
    var shotRequests: map<nat, ShotRequest>
    var held: map<nat, ArmedFullPageCapture>

    ghost var history: History
    ghost var clock: int

    // ---- The state this object stands for ----

    ghost function Armed(): (m: map<int, FullEntry>)
      reads this`armedFullPageTabs, armedFullPageTabs.Values
      ensures m.Keys == armedFullPageTabs.Keys
    {
      map t | t in armedFullPageTabs :: armedFullPageTabs[t].View()
    }

    ghost function TabsView(): Tabs
      reads this`generations, this`fullPageSessions, this`armedTabs, this`latestArmGenerations
      reads this`armedFullPageTabs, armedFullPageTabs.Values
    {
      Tabs(generations, fullPageSessions, armedTabs, Armed(), latestArmGenerations)
    }

    ghost function Abstract(): State
      reads this, armedFullPageTabs.Values
    {
      State(TabsView(), runs, sliceRequests, shotRequests, history, clock)
    }

    /** A suspended capture holds the very object that is armed, whenever the generations agree. */
    static predicate HeldOk(
        armed: map<int, ArmedFullPageCapture>, request: SliceRequest, held: map<nat, ArmedFullPageCapture>, q: nat) {
      request.pc.SliceAwaitImage? ==>
        && q in held
        && request.tab.id == Some(held[q].tab)
        && held[q].armGeneration == request.pc.armGeneration
        && (held[q].tab in armed && armed[held[q].tab].armGeneration == held[q].armGeneration ==>
              armed[held[q].tab] == held[q])
    }

    static ghost predicate ObjectsOk(
        armed: map<int, ArmedFullPageCapture>, requests: map<nat, SliceRequest>, held: map<nat, ArmedFullPageCapture>)
    {
      && (forall t | t in armed :: armed[t].tab == t)
      && (forall q | q in requests :: HeldOk(armed, requests[q], held, q))
    }

    ghost predicate Objects()
      reads this`armedFullPageTabs, this`sliceRequests, this`held
    {
      ObjectsOk(armedFullPageTabs, sliceRequests, held)
    }

    static lemma ObjectsShrink(
        armed: map<int, ArmedFullPageCapture>, tab: int, requests: map<nat, SliceRequest>,
        held: map<nat, ArmedFullPageCapture>)
      requires ObjectsOk(armed, requests, held)
      ensures ObjectsOk(armed - {tab}, requests, held)
    {
      forall q | q in requests ensures HeldOk(armed - {tab}, requests[q], held, q) {
        assert HeldOk(armed, requests[q], held, q);
      }
    }

    /** The object is in a state that some trace of the transition system ends in. */
    ghost predicate Valid()
      reads this, armedFullPageTabs.Values
    {
      Objects() && Reachable(rules, Abstract())
    }

    constructor (rules: Rules, now: int)
      ensures Valid() && Abstract() == Initial(now) && this.rules == rules
    {
      this.rules := rules;
      generations, fullPageSessions := map[], map[];
      armedTabs, armedFullPageTabs, latestArmGenerations := map[], map[], map[];
      runs, sliceRequests, shotRequests, held := map[], map[], map[], map[];
      history, clock := History({}, map[], [], [], []), now;
      new;
      assert Armed() == map[];
      ReachableInitially(rules, now);
    }

    // ---- Pieces of the coordinator ----

    method NextGeneration(tab: int) returns (generation: nat)
      modifies this`generations
      ensures generation == (if tab in old(generations) then old(generations)[tab] else 0) + 1
      ensures generations == old(generations)[tab := generation]
    {
      generation := (if tab in generations then generations[tab] else 0) + 1;
      generations := generations[tab := generation];
    }

    method FinishCapture(tab: int, captureSessionId: string)
      modifies this`fullPageSessions
      ensures fullPageSessions == old(fullPageSessions) || fullPageSessions == old(fullPageSessions) - {tab}
      ensures TabsView() == CaptureModel.FinishCapture(old(TabsView()), tab, captureSessionId)
    {
      if tab in fullPageSessions && fullPageSessions[tab].captureSessionId == captureSessionId {
        fullPageSessions := fullPageSessions - {tab};
      }
    }

    method EndFullPageCapture(tab: int, captureSessionId: string) returns (ok: bool)
      requires Objects()
      modifies this`fullPageSessions, this`armedFullPageTabs
      ensures Objects()
      ensures ok <==> tab in old(armedFullPageTabs) && old(armedFullPageTabs[tab].captureSessionId) == captureSessionId
      ensures armedFullPageTabs == if ok then old(armedFullPageTabs) - {tab} else old(armedFullPageTabs)
      ensures fullPageSessions == old(fullPageSessions) || fullPageSessions == old(fullPageSessions) - {tab}
      ensures TabsView() == EndFullPage(old(TabsView()), tab, captureSessionId)
    {
      if tab !in armedFullPageTabs || armedFullPageTabs[tab].captureSessionId != captureSessionId { return false; }
      ghost var before := Armed();
      ObjectsShrink(armedFullPageTabs, tab, sliceRequests, held);
      armedFullPageTabs := armedFullPageTabs - {tab};
      assert Armed() == before - {tab};
      FinishCapture(tab, captureSessionId);
      return true;
    }

    method DiscardFullPageCapture(tab: int, session: Session)
      requires Objects()
      modifies this`fullPageSessions, this`armedFullPageTabs
      ensures Objects()
      ensures TabsView() == DiscardFullPage(old(TabsView()), tab, session)
    {
      if tab in fullPageSessions && fullPageSessions[tab] == session {
        fullPageSessions := fullPageSessions - {tab};
      }
      var ok := EndFullPageCapture(tab, session.captureSessionId);
    }

    method FailStart(r: nat, error: StartError)
      requires Objects() && r in runs
      modifies this`runs, this`fullPageSessions, this`armedFullPageTabs
      ensures Objects()
      ensures Abstract() == Fail(old(Abstract()), r, error)
    {
      var run := runs[r];
      if run.session.Some? {
        DiscardFullPageCapture(run.tab.id, run.session.value);
        runs := runs[r := run.(pc := AwaitDiscard(error))];
      } else {
        runs := runs[r := run.(pc := Threw(error))];
      }
    }

    method RethrowStart(r: nat, error: StartError)
      requires Objects() && r in runs
      modifies this`runs, this`fullPageSessions, this`armedFullPageTabs
      ensures Objects()
      ensures Abstract() == FailIfRecorded(old(Abstract()), r, error)
    {
      var run := runs[r];
      if run.session.Some? && run.tab.id in fullPageSessions && fullPageSessions[run.tab.id] == run.session.value {
        FailStart(r, error);
      } else {
        runs := runs[r := run.(pc := Threw(error))];
      }
    }

    // ---- startCapture, from one await to the next ----

    /** The maps at the first await: a new generation, the new session, the previous one discarded. */
    method EnterTabs(tab: int, generation: nat, session: Option<Session>) returns (waits: bool)
      requires Objects() && generation == CaptureModel.NextGeneration(TabsView(), tab)
      modifies this`generations, this`fullPageSessions, this`armedFullPageTabs
      ensures Objects()
      ensures waits <==> tab in old(fullPageSessions)
      ensures TabsView() == EnterTab(old(TabsView()), tab, session)
    {
      var next := NextGeneration(tab);
      var previous := Lookup(fullPageSessions, tab);
      if session.Some? {
        fullPageSessions := fullPageSessions[tab := session.value];
      } else {
        fullPageSessions := fullPageSessions - {tab};
      }
      waits := previous.Some?;
      assert TabsView() == EnterCapture(old(TabsView()), tab, generation, session);
      if waits {
        DiscardFullPageCapture(tab, previous.value);
      }
    }

    method StartCapture(r: nat, mode: Mode, tab: SupportedTab, allowHotspot: bool, uuid: string)
      requires Objects()
      modifies this`generations, this`fullPageSessions, this`armedFullPageTabs, this`runs, this`history
      ensures Objects()
      ensures Abstract() == if IsSupportedTab(rules, tab) || (allowHotspot && rules.isHttps(tab.url))
                            then CaptureModel.StartCapture(old(Abstract()), r, mode, tab, uuid) else old(Abstract())
    {
      if !IsSupportedTab(rules, tab) && !(allowHotspot && rules.isHttps(tab.url)) { return; }
      var generation := (if tab.id in generations then generations[tab.id] else 0) + 1;
      var session := if mode.FullPage? then Some(Session(uuid, generation)) else None;
      var waits := EnterTabs(tab.id, generation, session);
      if session.Some? { history := history.(ids := history.ids + {uuid}); }
      runs := runs[r := Run(tab, generation, session, if waits then AwaitPreviousDiscard else AwaitStatus)];
      ghost var next := CaptureModel.StartCapture(old(Abstract()), r, mode, tab, uuid);
      assert TabsView() == next.tabs;
      assert runs == next.runs;
      assert history == next.history;
    }

    method PreviousDiscarded(r: nat)
      requires Objects() && r in runs
      modifies this
      ensures Objects()
      ensures Abstract() == CaptureModel.PreviousDiscarded(old(Abstract()), r)
    {
      var run := runs[r];
      if run.tab.id !in generations || generations[run.tab.id] != run.generation {
        FailStart(r, CaptureReplaced);
      } else {
        runs := runs[r := run.(pc := AwaitStatus)];
      }
    }

    method PageStatusReplied(r: nat, reply: Option<PageStatus>)
      requires Objects() && r in runs
      modifies this
      ensures Objects()
      ensures Abstract() == StatusReply(rules, old(Abstract()), r, reply)
    {
      var run := runs[r];
      if reply.None? {
        RethrowStart(r, BrowserFailure);
        return;
      }
      var status := reply.value;
      if run.tab.id !in generations || generations[run.tab.id] != run.generation {
        FailStart(r, CaptureReplaced);
      } else if !status.supported || status.context.platform == "" || status.context.pageVersion == "" ||
                status.context.pageSignature == "" {
        FailStart(r, InactiveOrUnsupportedTab);
      } else if run.session.Some? &&
                (status.viewport.None? || status.scrollY.None? || status.url != Some(run.tab.url)) {
        FailStart(r, ContextMismatch);
      } else {
        ReceiveArmMessage(r, ArmMessageOf(run, status));
      }
    }

    /** START_SAFE_CAPTURE and ARM_FULL_PAGE_CAPTURE up to `queryActiveTab`. */
    method ReceiveArmMessage(r: nat, arm: ArmMessage)
      requires Objects() && r in runs
      modifies this`runs, this`latestArmGenerations
      ensures Objects()
      ensures Abstract() == ReceiveArm(rules, old(Abstract()), r, arm)
    {
      var latest := if arm.tab in latestArmGenerations then latestArmGenerations[arm.tab] else 0;
      if !rules.parsesArm(arm) || arm.generation < latest {
        runs := runs[r := runs[r].(pc := AwaitArmReply(Replied(false)))];
      } else {
        latestArmGenerations := latestArmGenerations[arm.tab := arm.generation];
        runs := runs[r := runs[r].(pc := AwaitActiveTab(arm))];
      }
    }

    /** A new object for an accepted full-page arm; an accepted arm of either kind removes the other. */
    method InstallNewArm(arm: ArmMessage, url: string, now: int)
      requires Objects()
      requires forall q | q in sliceRequests && sliceRequests[q].pc.SliceAwaitImage? ::
                 q in held && !(held[q].tab == arm.tab && held[q].armGeneration == arm.generation)
      modifies this`armedTabs, this`armedFullPageTabs
      ensures Objects()
      ensures TabsView() == InstallArm(old(TabsView()), arm, url, now)
    {
      ghost var before := Armed();
      if arm.SafeArm? {
        ObjectsShrink(armedFullPageTabs, arm.tab, sliceRequests, held);
        armedTabs := armedTabs[arm.tab := SafeEntry(arm.generation, now + ARM_LIFETIME_MS, arm.context, url)];
        armedFullPageTabs := armedFullPageTabs - {arm.tab};
        assert Armed() == before - {arm.tab};
      } else {
        var armed := new ArmedFullPageCapture(arm, now + FULL_PAGE_LIFETIME_MS);
        ghost var held0, requests := held, sliceRequests;
        forall q | q in requests ensures HeldOk(armedFullPageTabs[arm.tab := armed], requests[q], held0, q) {
          assert HeldOk(armedFullPageTabs, requests[q], held0, q);
        }
        armedFullPageTabs := armedFullPageTabs[arm.tab := armed];
        armedTabs := armedTabs - {arm.tab};
        assert Armed() == before[arm.tab := armed.View()];
      }
    }

    /** The handler refuses the arm, or fails before it answers. */
    method RejectArm(r: nat, answer: Answer)
      requires Objects() && r in runs
      modifies this`runs
      ensures Objects()
      ensures Abstract() == SetPc(old(Abstract()), r, AwaitArmReply(answer))
    {
      runs := runs[r := runs[r].(pc := AwaitArmReply(answer))];
    }

    method AcceptArm(r: nat, url: string, now: int)
      requires Valid() && r in runs && runs[r].pc.AwaitActiveTab?
      modifies this`armedTabs, this`armedFullPageTabs, this`runs, this`history
      ensures Objects()
      ensures TabsView() == InstallArm(old(TabsView()), old(runs)[r].pc.arm, url, now)
      ensures history == RecordArm(old(history), old(runs)[r].pc.arm, now)
      ensures runs == old(runs)[r := old(runs)[r].(pc := AwaitArmReply(Replied(true)))]
    {
      var arm := runs[r].pc.arm;
      NoCaptureOf(r);
      InstallNewArm(arm, url, now);
      history := RecordArm(history, arm, now);
      runs := runs[r := runs[r].(pc := AwaitArmReply(Replied(true)))];
    }

    /** The same branches after `queryActiveTab`. */
    method ArmActiveTabReplied(r: nat, reply: Option<BrowserTab>, now: int)
      requires Valid() && r in runs && runs[r].pc.AwaitActiveTab?
      modifies this`armedTabs, this`armedFullPageTabs, this`runs, this`history, this`clock
      ensures Objects()
      ensures Abstract() == ArmActiveTab(rules, old(Abstract()), r, reply, now).(clock := now)
    {
      var arm := runs[r].pc.arm;
      if reply.None? {
        RejectArm(r, Rejected);
      } else if arm.tab !in latestArmGenerations || latestArmGenerations[arm.tab] != arm.generation ||
                !ArmMatchesActiveTab(rules, arm, reply.value) {
        RejectArm(r, Replied(false));
      } else {
        AcceptArm(r, reply.value.url.value, now);
      }
      ghost var tabs := TabsView();
      clock := now;
      assert TabsView() == tabs;
    }

    /** No suspended capture holds an object of the generation that is about to be installed. */
    lemma NoCaptureOf(r: nat)
      requires Valid() && r in runs && runs[r].pc.AwaitActiveTab?
      ensures runs[r].pc.arm.tab == runs[r].tab.id
      ensures forall q | q in sliceRequests && sliceRequests[q].pc.SliceAwaitImage? ::
                q in held && !(held[q].tab == runs[r].tab.id && held[q].armGeneration == runs[r].pc.arm.generation)
    {
      var s := Abstract();
      ReachableInv(rules, s);
      assert RunOk(s.tabs, s.history.ids, s.runs[r]);
      assert Install(runs[r].tab.id, runs[r].generation) !in s.history.installs;
      forall q | q in sliceRequests && sliceRequests[q].pc.SliceAwaitImage?
        ensures q in held && !(held[q].tab == runs[r].tab.id && held[q].armGeneration == runs[r].pc.arm.generation)
      {
        assert HeldOk(armedFullPageTabs, sliceRequests[q], held, q)
               && RequestOk(s.tabs.armedFullPageTabs, s.history, s.sliceRequests[q], s.clock);
      }
    }

    method ArmReplied(r: nat)
      requires Objects() && r in runs && runs[r].pc.AwaitArmReply?
      modifies this
      ensures Objects()
      ensures Abstract() == ArmReply(old(Abstract()), r)
    {
      var run := runs[r];
      if run.pc.answer.Rejected? {
        RethrowStart(r, BrowserFailure);
      } else if run.tab.id !in generations || generations[run.tab.id] != run.generation {
        FailStart(r, CaptureReplaced);
      } else if !run.pc.answer.ok {
        FailStart(r, NotArmed);
      } else {
        runs := runs[r := run.(pc := AwaitContent)];
      }
    }

    method ContentReplied(r: nat, answer: Answer)
      requires Objects() && r in runs
      modifies this
      ensures Objects()
      ensures Abstract() == ContentReply(old(Abstract()), r, answer)
    {
      var run := runs[r];
      if answer.Rejected? {
        RethrowStart(r, BrowserFailure);
      } else if run.tab.id !in generations || generations[run.tab.id] != run.generation {
        FailStart(r, CaptureReplaced);
      } else if !answer.ok {
        FailStart(r, StartFailed);
      } else {
        runs := runs[r := run.(pc := Returned)];
      }
    }

    method DiscardCompleted(r: nat)
      requires Objects() && r in runs && runs[r].pc.AwaitDiscard?
      modifies this
      ensures Objects()
      ensures Abstract() == SetPc(old(Abstract()), r, Threw(old(runs)[r].pc.error))
    {
      runs := runs[r := runs[r].(pc := Threw(runs[r].pc.error))];
    }

    // ---- cancel ----

    /** The first loop of `cancel`: every call in flight on any tab is superseded. */
    method AdvanceGenerations()
      modifies this`generations
      ensures generations.Keys == old(generations).Keys
      ensures forall tab | tab in generations :: generations[tab] == old(generations)[tab] + 1
    {
      var todo: set<int> := generations.Keys;
      while todo != {}
        invariant todo <= old(generations).Keys == generations.Keys
        invariant forall tab | tab in generations ::
          generations[tab] == if tab in todo then old(generations)[tab] else old(generations)[tab] + 1
        decreases |todo|
      {
        SomeElement(todo);
        var tab :| tab in todo;
        var generation := NextGeneration(tab);
        todo := todo - {tab};
      }
      assert forall tab | tab in generations :: tab !in todo;
    }

    /** The second: every recorded session is forgotten and its arm ended. */
    method EndRecordedSessions()
      requires Objects()
      modifies this`fullPageSessions, this`armedFullPageTabs
      ensures Objects()
      ensures fullPageSessions == map[]
      ensures forall tab :: tab in armedFullPageTabs <==>
                tab in old(armedFullPageTabs)
                && !(tab in old(fullPageSessions)
                     && old(fullPageSessions)[tab].captureSessionId == old(armedFullPageTabs)[tab].captureSessionId)
      ensures forall tab | tab in armedFullPageTabs :: armedFullPageTabs[tab] == old(armedFullPageTabs)[tab]
    {
      var entries := fullPageSessions;
      var todo: set<int> := entries.Keys;
      while todo != {}
        invariant Objects()
        invariant todo <= entries.Keys && fullPageSessions.Keys == todo
        invariant forall tab :: tab in armedFullPageTabs <==>
          tab in old(armedFullPageTabs)
          && !(tab in entries && tab !in todo
               && entries[tab].captureSessionId == old(armedFullPageTabs)[tab].captureSessionId)
        invariant forall tab | tab in armedFullPageTabs :: armedFullPageTabs[tab] == old(armedFullPageTabs)[tab]
        decreases |todo|
      {
        SomeElement(todo);
        var tab :| tab in todo;
        fullPageSessions := fullPageSessions - {tab};
        var ok := EndFullPageCapture(tab, entries[tab].captureSessionId);
        todo := todo - {tab};
      }
      assert forall tab | tab in entries :: tab !in todo;
    }

    /** Armed objects that are neither touched nor added look the same. */
    twostate lemma ArmedKept()
      requires forall t | t in armedFullPageTabs ::
                 t in old(armedFullPageTabs) && armedFullPageTabs[t] == old(armedFullPageTabs)[t]
                 && unchanged(armedFullPageTabs[t])
      ensures forall t | t in armedFullPageTabs :: Armed()[t] == old(Armed())[t]
    {
      forall t | t in armedFullPageTabs ensures Armed()[t] == old(Armed())[t] {
        assert armedFullPageTabs[t].View() == old(armedFullPageTabs[t].View());
      }
    }

    method Cancel()
      requires Objects()
      modifies this`generations, this`fullPageSessions, this`armedFullPageTabs
      ensures Objects()
      ensures TabsView() == CancelAll(old(TabsView()))
    {
      AdvanceGenerations();
      EndRecordedSessions();
      ArmedKept();
      ghost var before, after := old(TabsView()), TabsView();
      assert before.armedFullPageTabs == old(Armed()) && after.armedFullPageTabs == Armed();
      assert forall tab | tab in old(armedFullPageTabs) ::
        old(Armed())[tab].captureSessionId == old(armedFullPageTabs)[tab].captureSessionId;
      CancelledTabs(before, after);
    }

    static lemma CancelledTabs(before: Tabs, after: Tabs)
      requires after.generations.Keys == before.generations.Keys
      requires forall tab | tab in after.generations :: after.generations[tab] == before.generations[tab] + 1
      requires after.fullPageSessions == map[] && after.armedTabs == before.armedTabs
      requires after.latestArmGenerations == before.latestArmGenerations
      requires forall tab :: tab in after.armedFullPageTabs <==>
               tab in before.armedFullPageTabs && !SameSession(before, tab)
      requires forall tab | tab in after.armedFullPageTabs ::
               after.armedFullPageTabs[tab] == before.armedFullPageTabs[tab]
      ensures after == CancelAll(before)
    {
      var cancelled := CancelAll(before);
      assert cancelled.generations.Keys == after.generations.Keys;
      assert forall t | t in cancelled.generations :: cancelled.generations[t] == after.generations[t];
      assert cancelled.generations == after.generations;
      assert forall t :: t in cancelled.armedFullPageTabs <==> t in after.armedFullPageTabs;
      assert cancelled.armedFullPageTabs.Keys == after.armedFullPageTabs.Keys;
      assert forall t | t in cancelled.armedFullPageTabs ::
             cancelled.armedFullPageTabs[t] == after.armedFullPageTabs[t];
      assert cancelled.armedFullPageTabs == after.armedFullPageTabs;
    }

    // ---- Messages of the content script ----

    method EndMessage(sender: int, captureSessionId: string) returns (ok: bool)
      requires Objects()
      modifies this
      ensures Objects()
      ensures Abstract() == old(Abstract()).(tabs := EndFullPage(old(TabsView()), sender, captureSessionId))
      ensures ok <==>
                && sender in old(armedFullPageTabs)
                && old(armedFullPageTabs[sender].captureSessionId) == captureSessionId
    {
      ok := EndFullPageCapture(sender, captureSessionId);
    }

    method SliceMessageReceived(q: nat, sender: BrowserTab, message: SliceMessage)
      requires Objects()
      modifies this
      ensures Objects()
      ensures Abstract() == old(Abstract()).(
                sliceRequests := old(sliceRequests)[q := SliceRequest(sender, message, SliceAwaitActiveTab)])
    {
      sliceRequests := sliceRequests[q := SliceRequest(sender, message, SliceAwaitActiveTab)];
    }

    method DropArm(tab: int)
      requires Objects()
      modifies this`armedFullPageTabs
      ensures Objects()
      ensures TabsView() == DropFullArm(old(TabsView()), tab)
    {
      ghost var before := Armed();
      ObjectsShrink(armedFullPageTabs, tab, sliceRequests, held);
      armedFullPageTabs := armedFullPageTabs - {tab};
      assert Armed() == before - {tab};
    }

    method RefuseSlice(q: nat, tab: int, drop: bool, now: int)
      requires Objects() && q in sliceRequests
      modifies this`sliceRequests, this`armedFullPageTabs, this`clock
      ensures Objects()
      ensures Abstract() == (var refused := SetSlicePc(old(Abstract()), q, SliceRefused).(clock := now);
                             if drop then refused.(tabs := DropFullArm(refused.tabs, tab)) else refused)
    {
      sliceRequests := sliceRequests[q := sliceRequests[q].(pc := SliceRefused)];
      clock := now;
      assert TabsView() == old(TabsView());
      if drop { DropArm(tab); }
    }

    /** The checks of CAPTURE_FULL_PAGE_SLICE after `queryActiveTab`, in the order of the source. */
    method CheckSlice(request: SliceRequest, active: BrowserTab, now: int, later: int) returns (verdict: SliceVerdict)
      requires request.tab.id.Some?
      ensures verdict == JudgeSlice(rules, TabsView(), request, active, now, later)
    {
      var tab := request.tab.id.value;
      var message := request.message;
      var version :=
        if tab in armedFullPageTabs then Some(armedFullPageTabs[tab].context.pageVersion)
        else if tab in armedTabs then Some(armedTabs[tab].context.pageVersion)
        else None;
      if !IsCaptureTab(rules, request.tab, active, version) { return RefuseAndDrop; }
      if tab !in armedFullPageTabs || armedFullPageTabs[tab].expiresAt <= now { return RefuseAndDrop; }
      var armed := armedFullPageTabs[tab];
      if armed.captureSessionId != message.captureSessionId { return Refuse; }
      if armed.nextSequence != message.sequence { return Refuse; }
      if armed.context != message.context || armed.url != message.url || request.tab.url != Some(message.url) ||
         armed.viewport != message.viewport || message.scrollY < armed.lastScrollY ||
         (message.sequence == 0 && message.scrollY != armed.lastScrollY) ||
         !(armed.context.pageVersion == HOTSPOT_VERSION || DetectedAs(rules, request.tab.url.value, armed.context)) {
        return RefuseAndDrop;
      }
      if armed.inFlight { return Refuse; }
      if armed.lastCaptureAt.Some? && later - armed.lastCaptureAt.value < MINIMUM_SLICE_INTERVAL_MS { return Refuse; }
      return Accept;
    }

    /** Updating one armed object in place changes one entry of the map. */
    twostate lemma OneEntryChanged(tab: int)
      requires Objects() && tab in armedFullPageTabs && armedFullPageTabs == old(armedFullPageTabs)
      requires forall t | t in armedFullPageTabs && t != tab :: unchanged(armedFullPageTabs[t])
      ensures Armed() == old(Armed())[tab := armedFullPageTabs[tab].View()]
    {
      forall t | t in armedFullPageTabs && t != tab ensures Armed()[t] == old(Armed())[t] {
        assert unchanged(armedFullPageTabs[t]);
      }
    }

    method BeginCapture(q: nat, tab: int, later: int)
      requires Objects() && q in sliceRequests && sliceRequests[q].tab.id == Some(tab) && tab in armedFullPageTabs
      modifies this`held, this`sliceRequests, this`clock, armedFullPageTabs[tab]
      ensures Objects()
      ensures Armed() == old(Armed())[tab := old(Armed())[tab].(inFlight := true)]
      ensures sliceRequests == old(sliceRequests)[q :=
                old(sliceRequests)[q].(pc := SliceAwaitImage(armedFullPageTabs[tab].armGeneration, later))]
      ensures clock == later
    {
      var armed := armedFullPageTabs[tab];
      armed.Begin();
      OneEntryChanged(tab);
      ghost var requests, held0 := sliceRequests, held;
      held := held[q := armed];
      sliceRequests := sliceRequests[q := sliceRequests[q].(pc := SliceAwaitImage(armed.armGeneration, later))];
      clock := later;
      forall q0 | q0 in sliceRequests ensures HeldOk(armedFullPageTabs, sliceRequests[q0], held, q0) {
        assert q0 != q ==> HeldOk(armedFullPageTabs, requests[q0], held0, q0);
      }
    }

    /** CAPTURE_FULL_PAGE_SLICE from `queryActiveTab` to `captureVisibleTab`. */
    method SliceActiveTabReplied(q: nat, reply: Option<BrowserTab>, now: int, later: int)
      requires Objects() && q in sliceRequests
      modifies this, armedFullPageTabs.Values
      ensures Objects()
      ensures Abstract() == SliceActiveTab(rules, old(Abstract()), q, reply, now, later).(clock := later)
    {
      var request := sliceRequests[q];
      if reply.None? || request.tab.id.None? {
        RefuseSlice(q, 0, false, later);
        return;
      }
      var verdict := CheckSlice(request, reply.value, now, later);
      match verdict
      case Refuse => RefuseSlice(q, request.tab.id.value, false, later);
      case RefuseAndDrop => RefuseSlice(q, request.tab.id.value, true, later);
      case Accept => BeginCapture(q, request.tab.id.value, later);
    }

    method CompleteCapture(q: nat, now: int, later: int)
      requires Objects() && q in sliceRequests && sliceRequests[q].pc.SliceAwaitImage? && q in held
      requires held[q].tab in armedFullPageTabs && armedFullPageTabs[held[q].tab] == held[q]
      modifies this`sliceRequests, this`history, this`clock, held[q]
      ensures Objects()
      ensures var request: SliceRequest := old(sliceRequests)[q];
              var tab: int := held[q].tab;
              var armed: FullEntry := old(Armed())[tab];
              && Armed() == old(Armed())[tab := armed.(
                   inFlight := false, nextSequence := armed.nextSequence + 1,
                   lastScrollY := request.message.scrollY, lastCaptureAt := Some(later))]
              && sliceRequests == old(sliceRequests)[q := request.(pc := SliceImage)]
              && history == old(history).(slices := old(history).slices + [
                   Slice(armed.captureSessionId, request.message.sequence, PageOf(request.message), request.tab,
                         request.message.scrollY, request.pc.startedAt, now, later)])
              && clock == later
    {
      var armed := held[q];
      var request := sliceRequests[q];
      armed.Complete(request.message.scrollY, later);
      OneEntryChanged(armed.tab);
      ghost var requests := sliceRequests;
      sliceRequests := sliceRequests[q := request.(pc := SliceImage)];
      history := history.(slices := history.slices + [
        Slice(armed.captureSessionId, request.message.sequence, PageOf(request.message), request.tab,
              request.message.scrollY, request.pc.startedAt, now, later)]);
      clock := later;
      forall q0 | q0 in sliceRequests ensures HeldOk(armedFullPageTabs, sliceRequests[q0], held, q0) {
        assert HeldOk(armedFullPageTabs, requests[q0], held, q0);
      }
    }

    /** CAPTURE_FULL_PAGE_SLICE after `captureVisibleTab`: `===` on objects decides as the generations do. */
    method SliceImageReplied(q: nat, image: bool, now: int, later: int)
      requires Objects() && q in sliceRequests && sliceRequests[q].pc.SliceAwaitImage?
      modifies this, armedFullPageTabs.Values
      ensures Objects()
      ensures Abstract() == SliceShot(old(Abstract()), q, image, now, later).(clock := later)
    {
      assert HeldOk(armedFullPageTabs, sliceRequests[q], held, q);
      var armed := held[q];
      if armed.tab !in armedFullPageTabs || armedFullPageTabs[armed.tab] != armed {
        RefuseSlice(q, armed.tab, false, later);
      } else if !image || armed.expiresAt <= now {
        RefuseSlice(q, armed.tab, true, later);
      } else {
        CompleteCapture(q, now, later);
      }
    }

    method VisibleMessageReceived(q: nat, sender: BrowserTab, pageSignature: string)
      requires Objects()
      modifies this
      ensures Objects()
      ensures Abstract() == old(Abstract()).(
                shotRequests := old(shotRequests)[q := ShotRequest(sender, pageSignature, ShotAwaitActiveTab)])
    {
      shotRequests := shotRequests[q := ShotRequest(sender, pageSignature, ShotAwaitActiveTab)];
    }

    /** CAPTURE_VISIBLE_TAB from `queryActiveTab` to `captureVisibleTab`. */
    method VisibleActiveTabReplied(q: nat, reply: Option<BrowserTab>, now: int)
      requires Objects() && q in shotRequests
      modifies this
      ensures Objects()
      ensures Abstract() == ShotActiveTab(rules, old(Abstract()), q, reply, now).(clock := now)
    {
      clock := now;
      var request := shotRequests[q];
      var pc := ShotRefused;
      if reply.Some? && request.tab.id.Some? {
        pc := SpendSafeArm(request, reply.value, now);
      }
      shotRequests := shotRequests[q := request.(pc := pc)];
    }

    /** The safe arm leaves the map; whether it allows the capture. */
    method SpendSafeArm(request: ShotRequest, active: BrowserTab, now: int) returns (pc: ShotPc)
      requires Objects() && request.tab.id.Some?
      modifies this`armedTabs, this`history
      ensures Objects()
      ensures var tab := request.tab.id.value; var armed := Lookup(old(armedTabs), tab);
              var granted := armed.Some?
                             && IsCaptureTab(rules, request.tab, active, Some(armed.value.context.pageVersion))
                             && now < armed.value.expiresAt
                             && ShotMatches(rules, armed.value, request.pageSignature, request.tab);
              && armedTabs == (if armed.Some? then old(armedTabs) - {tab} else old(armedTabs))
              && pc == (if granted then ShotAwaitImage else ShotRefused)
              && history == (if granted
                             then old(history).(shots := old(history).shots + [Install(tab, armed.value.armGeneration)])
                             else old(history))
    {
      var tab := request.tab.id.value;
      var armed := Lookup(armedTabs, tab);
      armedTabs := armedTabs - {tab};
      pc := ShotRefused;
      if armed.None? {
        assert armedTabs == old(armedTabs);
      } else if IsCaptureTab(rules, request.tab, active, Some(armed.value.context.pageVersion)) &&
                now < armed.value.expiresAt && ShotMatches(rules, armed.value, request.pageSignature, request.tab) {
        history := history.(shots := history.shots + [Install(tab, armed.value.armGeneration)]);
        pc := ShotAwaitImage;
      }
    }

    method VisibleImageReplied(q: nat, image: bool)
      requires Objects() && q in shotRequests
      modifies this
      ensures Objects()
      ensures Abstract() == SetShotPc(old(Abstract()), q, if image then ShotImage else ShotRefused)
    {
      shotRequests := shotRequests[q := shotRequests[q].(pc := if image then ShotImage else ShotRefused)];
    }

    // ---- One step ----

    /** Any enabled event: the object takes exactly the step of the transition system. */
    method Handle(e: Event)
      requires Valid() && Enabled(Abstract(), e)
      modifies this, armedFullPageTabs.Values
      ensures Abstract() == Step(rules, old(Abstract()), e)
      ensures Valid()
    {
      ReachableStep(rules, Abstract(), e);
      match e
      case EvStart(r, mode, tab, allowHotspot, uuid) => StartCapture(r, mode, tab, allowHotspot, uuid);
      case EvPreviousDiscarded(r) => PreviousDiscarded(r);
      case EvStatus(r, status) => PageStatusReplied(r, status);
      case EvArmActiveTab(r, active, now) => ArmActiveTabReplied(r, active, now);
      case EvArmReply(r) => ArmReplied(r);
      case EvContent(r, answer) => ContentReplied(r, answer);
      case EvDiscarded(r) => DiscardCompleted(r);
      case EvCancel => Cancel();
      case EvEnd(senderId, id) => var ok := EndMessage(senderId, id);
      case EvSlice(q, sender, message) => SliceMessageReceived(q, sender, message);
      case EvSliceActiveTab(q, active, now, later) => SliceActiveTabReplied(q, active, now, later);
      case EvSliceShot(q, image, now, later) => SliceImageReplied(q, image, now, later);
      case EvShot(q, sender, pageSignature) => VisibleMessageReceived(q, sender, pageSignature);
      case EvShotActiveTab(q, active, now) => VisibleActiveTabReplied(q, active, now);
      case EvShotImage(q, image) => VisibleImageReplied(q, image);
    }
  }
}

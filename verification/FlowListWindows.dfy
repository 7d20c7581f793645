/** The windows in which a flow-delete call makes an access unsafe: between the association of a flow and its
    publication; while a drain takes the flow off its list; and between that and the drain's removal call. */
module FlowListWindows {
  import opened Wrappers
  import opened HookLifetime
  import HookLifetimeParts
  import opened HookLifetimeRuns
  import opened HookLifetimeSteps
  import opened FlowLists
  import opened FlowListSafety

  // ---- facts about the lists that hold in every run ----

  ghost predicate Publishers(s: ListState) {
    forall t :: t in s.unpublished ==>
      && t in s.core.threads && s.core.threads[t].Classify? && s.core.threads[t].at.Leaving?
      && (Live(s, s.unpublished[t]) ==> s.core.flows[s.unpublished[t]].context == s.core.threads[t].context)
  }

  ghost predicate ListContexts(s: ListState) {
    forall c, w :: c in s.lists && w in s.lists[c] && w in s.core.flows ==> s.core.flows[w].context == c
  }

  /** A drain has flows of its own client's context. */
  ghost predicate LocalContexts(s: ListState) {
    forall cl, w :: InDrain(s, cl) && cl in s.core.clients && w in s.drains[cl].local && w in s.core.flows ==>
      s.core.flows[w].context == s.core.clients[cl].context
  }

  ghost predicate Drains(s: ListState) {
    forall cl :: cl in s.drains ==> cl in s.core.clients && (InDrain(s, cl) ==> s.core.clients[cl].phase.DetachStarted?)
  }

  ghost predicate Steady(s: ListState) {
    && ListGood(s) && FlaggedLate(s.core) && SkippedLate(s.core)
    && Publishers(s) && ListContexts(s) && LocalContexts(s) && Drains(s)
  }

  lemma FlowContextAfter(s: State, e: Event, w: FlowId)
    requires Good(s) && Enabled(s, e) && Safe(s, e) && w in s.flows && w in Next(s, e).flows
    ensures Next(s, e).flows[w].context == s.flows[w].context
  {
    OwnersAfter(s, e, w);
    if e.AssociateFlow? {
      FlowOfMaker(s, e.thread);
    }
  }

  /** A name that was given out does not come back. */
  lemma FlowWasLive(s: ListState, e: ListEvent, w: FlowId)
    requires ListGood(s) && ListEnabled(s, e) && (e.Step? ==> Safe(s.core, e.event)) && w < s.born
    ensures Live(ListNext(s, e), w) ==> Live(s, w)
    ensures Live(ListNext(s, e), w) ==> ListNext(s, e).core.flows[w].context == s.core.flows[w].context
  {
    hide Next, Safe, ListNext, Good, Enabled;
    CoreFlowsAfter(s, e);
    EnabledCore(s, e);
    if e.Step? {
      FlowsAfter(s.core, e.event);
      if w in s.core.flows && w in Next(s.core, e.event).flows {
        FlowContextAfter(s.core, e.event, w);
      }
    }
  }

  lemma PublishersStep(s: ListState, e: ListEvent)
    requires Steady(s) && ListEnabled(s, e) && (e.Step? ==> Safe(s.core, e.event))
    ensures Publishers(ListNext(s, e))
  {
    hide Steady, ListNext, ListEnabled, Safe;
    var r := ListNext(s, e);
    forall t | t in r.unpublished
      ensures t in r.core.threads && r.core.threads[t].Classify? && r.core.threads[t].at.Leaving?
      ensures Live(r, r.unpublished[t]) ==> r.core.flows[r.unpublished[t]].context == r.core.threads[t].context
    {
      if e.Step? && e.event == AssociateFlow(t) {
        AssociatedPublisher(s, t);
      } else {
        UnpublishedStays(s, e, t);
      }
    }
  }

  lemma AssociatedPublisher(s: ListState, t: ThreadId)
    requires ListEnabled(s, Step(AssociateFlow(t))) && Safe(s.core, AssociateFlow(t))
    ensures var r := ListNext(s, Step(AssociateFlow(t)));
            && t in r.unpublished && t in r.core.threads && r.core.threads[t].Classify? && r.core.threads[t].at.Leaving?
            && r.unpublished[t] in r.core.flows && r.core.flows[r.unpublished[t]].context == r.core.threads[t].context
  {
  }

  lemma UnpublishedStays(s: ListState, e: ListEvent, t: ThreadId)
    requires Steady(s) && ListEnabled(s, e) && (e.Step? ==> Safe(s.core, e.event))
    requires t in ListNext(s, e).unpublished && !(e.Step? && e.event == AssociateFlow(t))
    ensures var r := ListNext(s, e);
            && t in s.unpublished && r.unpublished[t] == s.unpublished[t]
            && t in r.core.threads && r.core.threads[t].Classify? && r.core.threads[t].at.Leaving?
            && (Live(r, s.unpublished[t]) ==> r.core.flows[s.unpublished[t]].context == r.core.threads[t].context)
  {
    UnpublishedKept(s, e, t);
    CoreFlowsAfter(s, e);
    EnabledCore(s, e);
    UnpublishedBorn(s, t);
    hide Next, Safe, Good, Named, Enabled, ListNext, ListEnabled, FlaggedLate, SkippedLate, ListContexts, LocalContexts,
      Drains;
    FlowWasLive(s, e, s.unpublished[t]);
    if e.Step? {
      CallbackStays(s.core, e.event, t);
    }
  }

  lemma UnpublishedBorn(s: ListState, t: ThreadId)
    requires Named(s) && t in s.unpublished
    ensures s.unpublished[t] < s.born
  {
    assert s.unpublished[t] in s.unpublished.Values;
    assert InUse(s, s.unpublished[t]);
  }

  lemma UnpublishedKept(s: ListState, e: ListEvent, t: ThreadId)
    requires ListEnabled(s, e) && (e.Step? ==> Safe(s.core, e.event))
    requires t in ListNext(s, e).unpublished && !(e.Step? && e.event == AssociateFlow(t))
    ensures t in s.unpublished && ListNext(s, e).unpublished[t] == s.unpublished[t]
    ensures e.Step? ==> e.event != Leave(t)
  {
    hide Next, Safe, Enabled;
  }

  lemma ListsAfterStep(s: ListState, e: Event, c: ContextId, w: FlowId)
    requires Enabled(s.core, e) && Safe(s.core, e) && c in AfterStep(s, e).lists && w in AfterStep(s, e).lists[c]
    ensures c in s.lists && w in s.lists[c]
  {
    hide Next, Safe;
  }

  /** A flow on a list was there before, or has just been published. */
  lemma ListsAfter(s: ListState, e: ListEvent, c: ContextId, w: FlowId)
    requires ListEnabled(s, e) && (e.Step? ==> Safe(s.core, e.event))
    requires c in ListNext(s, e).lists && w in ListNext(s, e).lists[c]
    ensures || (c in s.lists && w in s.lists[c])
            || (e.Publish? && s.core.threads[e.thread].context == c && s.unpublished[e.thread] == w)
  {
    hide Next, Safe, AfterStep;
    match e
    case Step(core) => ListsAfterStep(s, core, c, w);
    case Unlink(t) => WithoutMembers(s.lists[c], s.core.threads[t].flow, w);
    case _ =>
  }

  lemma ListContextsStep(s: ListState, e: ListEvent)
    requires Steady(s) && ListEnabled(s, e) && (e.Step? ==> Safe(s.core, e.event))
    ensures ListContexts(ListNext(s, e))
  {
    hide ListNext, ListEnabled, Safe, Good, Named;
    var r := ListNext(s, e);
    forall c, w | c in r.lists && w in r.lists[c] && w in r.core.flows ensures r.core.flows[w].context == c {
      ListsAfter(s, e, c, w);
      ListedBorn(s, e, c, w);
      FlowWasLive(s, e, w);
    }
  }

  lemma ListedBorn(s: ListState, e: ListEvent, c: ContextId, w: FlowId)
    requires Named(s) && ListEnabled(s, e)
    requires || (c in s.lists && w in s.lists[c])
             || (e.Publish? && s.core.threads[e.thread].context == c && s.unpublished[e.thread] == w)
    ensures w < s.born
    ensures e.Publish? && s.unpublished[e.thread] == w ==> e.thread in s.unpublished
  {
    if e.Publish? && s.unpublished[e.thread] == w {
      assert w in s.unpublished.Values;
    }
    assert InUse(s, w);
  }

  /** A flow on a local list was there before, or on the list that has just been taken. */
  lemma LocalsAfter(s: ListState, e: ListEvent, cl: ClientId, w: FlowId)
    requires ListEnabled(s, e) && (e.Step? ==> Safe(s.core, e.event))
    requires InDrain(ListNext(s, e), cl) && w in ListNext(s, e).drains[cl].local
    ensures || (InDrain(s, cl) && w in s.drains[cl].local)
            || (e == TakeList(cl) && w in s.lists[s.core.clients[cl].context])
  {
    hide Next, Safe, Intact;
    if e.Unlink? {
      WithoutMembers(s.drains[cl].local, s.core.threads[e.thread].flow, w);
    }
  }

  lemma ClientContextStays(s: State, e: Event, cl: ClientId)
    requires Enabled(s, e) && Safe(s, e) && cl in s.clients && cl in Next(s, e).clients
    ensures Next(s, e).clients[cl].context == s.clients[cl].context
  {
    HookLifetimeParts.ClientsAfter(s, e);
    hide Next;
  }

  lemma LocalContextsStep(s: ListState, e: ListEvent)
    requires Steady(s) && ListEnabled(s, e) && (e.Step? ==> Safe(s.core, e.event))
    ensures LocalContexts(ListNext(s, e))
  {
    hide ListNext, Safe, Good, Named, Next, Publishers, FlaggedLate, SkippedLate;
    var r := ListNext(s, e);
    CoreFlowsAfter(s, e);
    forall cl, w | InDrain(r, cl) && cl in r.core.clients && w in r.drains[cl].local && w in r.core.flows
      ensures r.core.flows[w].context == r.core.clients[cl].context
    {
      LocalsAfter(s, e, cl, w);
      LocalBorn(s, e, cl, w);
      FlowWasLive(s, e, w);
      if e.Step? {
        ClientContextStays(s.core, e.event, cl);
      }
    }
  }

  lemma LocalBorn(s: ListState, e: ListEvent, cl: ClientId, w: FlowId)
    requires Named(s) && ListEnabled(s, e)
    requires || (InDrain(s, cl) && w in s.drains[cl].local)
             || (e == TakeList(cl) && w in s.lists[s.core.clients[cl].context])
    ensures w < s.born
  {
    assert InUse(s, w);
  }

  lemma DrainsStep(s: ListState, e: ListEvent)
    requires Steady(s) && ListEnabled(s, e) && (e.Step? ==> Safe(s.core, e.event))
    ensures Drains(ListNext(s, e))
  {
    hide Next, Safe, ListGood, Publishers, ListContexts, LocalContexts, FlaggedLate, SkippedLate, Intact;
    var r := ListNext(s, e);
    forall cl | cl in r.drains ensures cl in r.core.clients && (InDrain(r, cl) ==> r.core.clients[cl].phase.DetachStarted?) {
      if e.Step? {
        ClientStays(s.core, e.event, cl);
        if InDrain(s, cl) {
          ClientAfter(s.core, e.event, cl);
        }
      }
    }
  }

  lemma SteadyStep(s: ListState, e: ListEvent)
    requires Steady(s) && ListEnabled(s, e)
    ensures (e.Step? ==> Safe(s.core, e.event)) && Steady(ListNext(s, e))
  {
    ListStepIsGood(s, e);
    PublishersStep(s, e);
    ListContextsStep(s, e);
    LocalContextsStep(s, e);
    DrainsStep(s, e);
    CoreFlowsAfter(s, e);
    hide Publishers, ListContexts, LocalContexts, Drains, FlaggedLate, SkippedLate, Next, Safe, ListNext, Named, Enabled;
    if e.Step? {
      EnabledCore(s, e);
      FlaggedLateStep(s.core, e.event);
      SkippedLateStep(s.core, e.event);
    }
  }

  // ---- facts that hold until something happens in one of the windows ----

  /** The drain has taken the flow off its list and not yet removed it. */
  ghost predicate Held(s: ListState, w: FlowId) {
    exists cl :: InDrain(s, cl) && s.drains[cl].cursor == Holding(w)
  }

  /** Between association and publication, or between the drain's taking it off its list and its removal call. */
  ghost predicate InWindow(s: ListState, w: FlowId) {
    w in s.unpublished.Values || Held(s, w)
  }

  ghost predicate LocalsLive(s: ListState) {
    forall w: FlowId :: InLocals(s, w) ==> Live(s, w)
  }

  ghost predicate WindowsLive(s: ListState) {
    forall w: FlowId :: InWindow(s, w) ==> Live(s, w)
  }

  /** Somebody will still link or unlink the flow. */
  ghost predicate OnItsWay(s: ListState, w: FlowId) {
    w in s.unpublished.Values || InLists(s, w) || InLocals(s, w)
  }

  ghost predicate UnlinkedGone(s: ListState) {
    forall t :: t in s.unlinked ==>
      && t in s.core.threads && s.core.threads[t].FlowDelete? && s.core.threads[t].at.Entered?
      && !OnItsWay(s, s.core.threads[t].flow)
  }

  ghost predicate EarlyContext(s: State, c: ContextId) {
    c in s.contexts && s.contexts[c].client in s.clients && !Late(s.clients[s.contexts[c].client].phase)
  }

  /** Until client_detached is set, the list of a context holds live flows only. */
  ghost predicate EarlyListsLive(s: ListState) {
    forall c, w: FlowId :: c in s.lists && w in s.lists[c] && EarlyContext(s.core, c) ==> Live(s, w)
  }

  ghost predicate Tidy(s: ListState) {
    WindowsLive(s) && LocalsLive(s) && AllIntact(s) && UnlinkedGone(s) && EarlyListsLive(s)
  }

  /** A flow is deleted in one of the windows, or unlinked before its publication or while a drain takes it off. */
  ghost predicate InTheWindow(s: ListState, e: ListEvent)
    requires ListEnabled(s, e)
  {
    (e.Step? && e.event.DeleteFlow? && InWindow(s, s.core.threads[e.event.thread].flow)) || EarlyUnlink(s, e) || Tears(s, e)
  }

  lemma OnItsWayAfterStep(s: ListState, e: Event, w: FlowId)
    requires Enabled(s.core, e) && Safe(s.core, e) && OnItsWay(AfterStep(s, e), w)
    ensures OnItsWay(s, w) || (e.AssociateFlow? && s.core.threads[e.thread].at.flow == w)
  {
    hide Next, Safe;
  }

  lemma OnItsWayAfterDrain(s: ListState, e: ListEvent, w: FlowId)
    requires ListEnabled(s, e) && OfDrain(e) && OnItsWay(ListNext(s, e), w)
    ensures OnItsWay(s, w)
  {
    var r, cl := ListNext(s, e), e.client;
    assert forall k :: k != cl ==> (InDrain(r, k) <==> InDrain(s, k)) && (InDrain(s, k) ==> r.drains[k] == s.drains[k]);
    if e.TakeList? {
      var c := s.core.clients[cl].context;
      assert w in s.lists[c] ==> InLists(s, w);
    } else {
      assert InDrain(s, cl);
    }
  }

  lemma OnItsWayAfter(s: ListState, e: ListEvent, w: FlowId)
    requires ListEnabled(s, e) && (e.Step? ==> Safe(s.core, e.event)) && OnItsWay(ListNext(s, e), w)
    ensures (OnItsWay(s, w) && !(e.Unlink? && s.core.threads[e.thread].flow == w && w !in s.unpublished.Values))
            || NewReference(s, e, w)
  {
    hide Next, Safe, AfterStep, OnItsWay;
    match e
    case Step(core) => OnItsWayAfterStep(s, core, w);
    case Publish(t) => PublishOnItsWay(s, t, w);
    case Unlink(t) => UnlinkOnItsWay(s, t, w);
    case _ => OnItsWayAfterDrain(s, e, w);
  }

  lemma PublishOnItsWay(s: ListState, t: ThreadId, w: FlowId)
    requires ListEnabled(s, Publish(t)) && OnItsWay(ListNext(s, Publish(t)), w)
    ensures OnItsWay(s, w)
  {
    assert s.unpublished[t] in s.unpublished.Values;
  }

  lemma UnlinkOnItsWay(s: ListState, t: ThreadId, w: FlowId)
    requires t in s.core.threads && s.core.threads[t].FlowDelete? && OnItsWay(AfterUnlink(s, t), w)
    ensures OnItsWay(s, w) && !(s.core.threads[t].flow == w && w !in s.unpublished.Values)
  {
    UnlinkReferences(s, t, w);
  }

  lemma UnlinkedGoneStep(s: ListState, e: ListEvent)
    requires Steady(s) && UnlinkedGone(s) && ListEnabled(s, e) && (e.Step? ==> Safe(s.core, e.event)) && !EarlyUnlink(s, e)
    ensures UnlinkedGone(ListNext(s, e))
  {
    var r := ListNext(s, e);
    forall t | t in r.unlinked
      ensures t in r.core.threads && r.core.threads[t].FlowDelete? && r.core.threads[t].at.Entered?
      ensures !OnItsWay(r, r.core.threads[t].flow)
    {
      UnlinkedStays(s, e, t);
    }
  }

  lemma UnlinkedStays(s: ListState, e: ListEvent, t: ThreadId)
    requires Steady(s) && UnlinkedGone(s) && ListEnabled(s, e) && (e.Step? ==> Safe(s.core, e.event)) && !EarlyUnlink(s, e)
    requires t in ListNext(s, e).unlinked
    ensures var r := ListNext(s, e);
            && t in r.core.threads && r.core.threads[t].FlowDelete? && r.core.threads[t].at.Entered?
            && !OnItsWay(r, r.core.threads[t].flow)
  {
    hide Next, Safe, Good, OnItsWay, Publishers, ListContexts, Drains, FlaggedLate, SkippedLate, Named;
    CoreFlowsAfter(s, e);
    var w := s.core.threads[t].flow;
    FlowInHand(s.core, t);
    if e.Step? {
      CallbackStays(s.core, e.event, t);
      if e.event.AssociateFlow? {
        FlowOfMaker(s.core, e.event.thread);
      }
    }
    if OnItsWay(ListNext(s, e), w) {
      OnItsWayAfter(s, e, w);
    }
  }

  lemma EarlyContextAfter(s: State, e: Event, c: ContextId)
    requires Good(s) && Enabled(s, e) && Safe(s, e) && EarlyContext(Next(s, e), c)
    ensures EarlyContext(s, c) || (e.Attach? && e.context == c)
  {
    hide Next, Safe;
    ContextAfter(s, e, c);
    ContextClient(s, c);
    if c in s.contexts && Late(s.clients[s.contexts[c].client].phase) {
      PhaseAfter(s, e, s.contexts[c].client);
    } else if c !in s.contexts {
      AttachedContext(s, e, c);
    }
  }

  lemma AttachedContext(s: State, e: Event, c: ContextId)
    requires Enabled(s, e) && Safe(s, e) && c in Next(s, e).contexts && c !in s.contexts
    ensures e.Attach? && e.context == c
  {
    HookLifetimeParts.ContextsAfter(s, e);
    hide Next;
  }

  /** A flow-delete call frees no flow that is on the list of a context whose client is not flagged. */
  lemma NotDeletedWhileListed(s: ListState, t: ThreadId, c: ContextId)
    requires Good(s.core) && SkippedLate(s.core) && ListContexts(s) && UnlinkedGone(s)
    requires t in s.core.threads && s.core.threads[t].FlowDelete? && (s.core.threads[t].at.Skipped? || t in s.unlinked)
    requires c in s.lists && s.core.threads[t].flow in s.lists[c]
    ensures !EarlyContext(s.core, c)
  {
    hide Good, SkippedLate, EarlyContext;
    assert InLists(s, s.core.threads[t].flow);
    assert s.core.threads[t].at.Skipped?;
    FlowInHand(s.core, t);
    SkippedContext(s.core, t);
  }

  lemma SkippedContext(s: State, t: ThreadId)
    requires Good(s) && SkippedLate(s) && t in s.threads && s.threads[t].FlowDelete? && s.threads[t].at.Skipped?
    ensures !EarlyContext(s, s.threads[t].context)
  {
    assert ThreadOk(s, t, s.threads[t]);
  }

  lemma EarlyListsLiveStep(s: ListState, e: ListEvent)
    requires Steady(s) && Tidy(s) && ListEnabled(s, e) && (e.Step? ==> Safe(s.core, e.event)) && OwnFlowLive(s, e)
    ensures EarlyListsLive(ListNext(s, e))
  {
    hide Good, Named, Next, Safe, Publishers, ListContexts, LocalContexts, Drains, FlaggedLate, SkippedLate,
      WindowsLive, LocalsLive, AllIntact, UnlinkedGone, AfterStep;
    var r := ListNext(s, e);
    CoreFlowsAfter(s, e);
    forall c, w: FlowId | c in r.lists && w in r.lists[c] && EarlyContext(r.core, c) ensures Live(r, w) {
      ListsAfter(s, e, c, w);
      if e.Step? {
        ListedStaysLive(s, e.event, c, w);
      } else {
        assert Live(s, w);
      }
    }
  }

  lemma AttachEmpties(s: ListState, e: Event, c: ContextId)
    requires Enabled(s.core, e) && Safe(s.core, e)
    ensures e.Attach? && e.context == c ==> c in AfterStep(s, e).lists && AfterStep(s, e).lists[c] == []
  {
    hide Next;
  }

  lemma ListedStaysLive(s: ListState, e: Event, c: ContextId, w: FlowId)
    requires Steady(s) && Tidy(s) && ListEnabled(s, Step(e)) && Safe(s.core, e)
    requires c in s.lists && w in s.lists[c] && EarlyContext(Next(s.core, e), c)
    requires c in AfterStep(s, e).lists && w in AfterStep(s, e).lists[c]
    ensures w in Next(s.core, e).flows
  {
    hide Next, Safe, Good, Publishers, ListContexts, LocalContexts, Drains, FlaggedLate, SkippedLate, WindowsLive,
      LocalsLive, AllIntact, UnlinkedGone;
    FlowsAfter(s.core, e);
    EarlyContextAfter(s.core, e, c);
    AttachEmpties(s, e, c);
    assert Live(s, w) && InUse(s, w);
    if e.DropFlow? {
      FlowOfMaker(s.core, e.thread);
    } else if e.DeleteFlow? && s.core.threads[e.thread].flow == w {
      NotDeletedWhileListed(s, e.thread, c);
    }
  }

  lemma InWindowAfterStep(s: ListState, e: Event, w: FlowId)
    requires Enabled(s.core, e) && Safe(s.core, e) && InWindow(AfterStep(s, e), w)
    ensures InWindow(s, w) || (e.AssociateFlow? && s.core.threads[e.thread].at.flow == w)
  {
    hide Next, Safe;
  }

  lemma InWindowAfterDrain(s: ListState, e: ListEvent, w: FlowId)
    requires ListEnabled(s, e) && OfDrain(e) && InWindow(ListNext(s, e), w)
    ensures InWindow(s, w) || (e.Relink? && s.drains[e.client].cursor.head == w)
  {
    hide Intact;
    var r, cl := ListNext(s, e), e.client;
    assert forall k :: k != cl ==> (InDrain(r, k) <==> InDrain(s, k)) && (InDrain(s, k) ==> r.drains[k] == s.drains[k]);
  }

  lemma InWindowAfter(s: ListState, e: ListEvent, w: FlowId)
    requires ListEnabled(s, e) && (e.Step? ==> Safe(s.core, e.event)) && InWindow(ListNext(s, e), w)
    ensures InWindow(s, w) || NewReference(s, e, w) || (e.Relink? && s.drains[e.client].cursor.head == w)
  {
    hide Next, Safe, AfterStep, InWindow;
    match e
    case Step(core) => InWindowAfterStep(s, core, w);
    case Publish(t) => PublishInWindow(s, t, w);
    case Unlink(t) => UnlinkInWindow(s, t, w);
    case _ => InWindowAfterDrain(s, e, w);
  }

  lemma UnlinkInWindow(s: ListState, t: ThreadId, w: FlowId)
    requires t in s.core.threads && s.core.threads[t].FlowDelete?
    ensures InWindow(AfterUnlink(s, t), w) <==> InWindow(s, w)
  {
    var r := AfterUnlink(s, t);
    assert forall cl :: InDrain(r, cl) <==> InDrain(s, cl);
    assert forall cl :: InDrain(s, cl) ==> r.drains[cl].cursor == s.drains[cl].cursor;
  }

  lemma PublishInWindow(s: ListState, t: ThreadId, w: FlowId)
    requires ListEnabled(s, Publish(t)) && InWindow(ListNext(s, Publish(t)), w)
    ensures InWindow(s, w)
  {
  }

  /** When the drain takes the list, the client is not flagged yet, so all flows on it are live. */
  lemma TakenLive(s: ListState, cl: ClientId, w: FlowId)
    requires Steady(s) && EarlyListsLive(s) && ListEnabled(s, TakeList(cl)) && w in s.lists[s.core.clients[cl].context]
    ensures Live(s, w)
  {
    DetachingContext(s.core, cl);
  }

  lemma DetachingContext(s: State, cl: ClientId)
    requires Good(s) && cl in s.clients && s.clients[cl].phase.DetachStarted?
    ensures EarlyContext(s, s.clients[cl].context)
  {
    assert ContextAlive(s, cl);
  }

  lemma WindowsLiveStep(s: ListState, e: ListEvent)
    requires Steady(s) && Tidy(s) && ListEnabled(s, e) && (e.Step? ==> Safe(s.core, e.event)) && !InTheWindow(s, e)
    requires OwnFlowLive(s, e)
    ensures WindowsLive(ListNext(s, e))
  {
    hide Good, Next, Safe, Publishers, ListContexts, LocalContexts, Drains, FlaggedLate, SkippedLate, UnlinkedGone,
      InWindow, ListNext, LocalsLive, AllIntact, Tears;
    CoreFlowsAfter(s, e);
    forall w: FlowId | InWindow(ListNext(s, e), w) ensures Live(ListNext(s, e), w) {
      InWindowAfter(s, e, w);
      if e.Step? {
        WindowStaysLive(s, e.event, w);
      }
    }
  }

  /** Nobody frees a flow on the local list of a drain: a flow-delete call that has entered takes it off first, and
      one that has not can only come after the drain. */
  lemma NotDeletedWhileLocal(s: ListState, t: ThreadId)
    requires Steady(s) && UnlinkedGone(s)
    requires t in s.core.threads && s.core.threads[t].FlowDelete? && (s.core.threads[t].at.Skipped? || t in s.unlinked)
    ensures !InLocals(s, s.core.threads[t].flow)
  {
    hide Good, Named, Publishers, ListContexts, FlaggedLate, SkippedLate;
    var w := s.core.threads[t].flow;
    if InLocals(s, w) {
      var cl :| InDrain(s, cl) && w in s.drains[cl].local;
      FlowInHand(s.core, t);
      SkippedContext(s.core, t);
      DetachingContext(s.core, cl);
    }
  }

  lemma LocalsLiveStep(s: ListState, e: ListEvent)
    requires Steady(s) && Tidy(s) && ListEnabled(s, e) && (e.Step? ==> Safe(s.core, e.event))
    ensures LocalsLive(ListNext(s, e))
  {
    hide Good, Next, Safe, Publishers, ListContexts, LocalContexts, Drains, FlaggedLate, SkippedLate, UnlinkedGone,
      ListNext, WindowsLive, AllIntact, EarlyListsLive;
    var r := ListNext(s, e);
    CoreFlowsAfter(s, e);
    forall w: FlowId | InLocals(r, w) ensures Live(r, w) {
      var cl :| InDrain(r, cl) && w in r.drains[cl].local;
      LocalsAfter(s, e, cl, w);
      assert InDrain(s, cl) && w in s.drains[cl].local ==> InLocals(s, w);
      if e.TakeList? && !InLocals(s, w) {
        TakenLive(s, cl, w);
      } else if e.Step? {
        LocalStaysLive(s, e.event, w);
      }
    }
  }

  lemma LocalStaysLive(s: ListState, e: Event, w: FlowId)
    requires Steady(s) && UnlinkedGone(s) && ListEnabled(s, Step(e)) && Safe(s.core, e) && InLocals(s, w) && Live(s, w)
    ensures w in Next(s.core, e).flows
  {
    hide Good, Next, Publishers, ListContexts, LocalContexts, Drains, FlaggedLate, SkippedLate, UnlinkedGone, Safe;
    FlowsAfter(s.core, e);
    assert InUse(s, w);
    if e.DropFlow? {
      FlowOfMaker(s.core, e.thread);
    } else if e.DeleteFlow? {
      NotDeletedWhileLocal(s, e.thread);
    }
  }

  lemma WindowStaysLive(s: ListState, e: Event, w: FlowId)
    requires ListGood(s) && WindowsLive(s) && ListEnabled(s, Step(e)) && Safe(s.core, e) && !InTheWindow(s, Step(e))
    requires InWindow(s, w) || NewReference(s, Step(e), w)
    ensures w in Next(s.core, e).flows
  {
    hide Good, Next, Safe;
    FlowsAfter(s.core, e);
    assert InWindow(s, w) ==> InUse(s, w) && Live(s, w);
    if e.DropFlow? || e.AssociateFlow? {
      FlowOfMaker(s.core, e.thread);
    }
  }

  /** With live flows in the windows, every step finds its own flow live, unless it unlinks one too early. */
  lemma OwnAccess(s: ListState, e: ListEvent)
    requires ListGood(s) && WindowsLive(s) && LocalsLive(s) && AllIntact(s) && ListEnabled(s, e) && !EarlyUnlink(s, e)
    ensures OwnFlowLive(s, e)
  {
    hide Named, Enabled, Next;
    match e
    case Publish(t) => assert s.unpublished[t] in s.unpublished.Values;
    case Unlink(t) => FlowInHand(s.core, t);
    case ReadHead(cl) => assert InLocals(s, s.drains[cl].local[0]);
    case Relink(cl) => ReadAreLocal(s, cl);
    case RemoveFlow(cl) => assert Held(s, s.drains[cl].cursor.flow);
    case _ =>
  }

  lemma ReadAreLocal(s: ListState, cl: ClientId)
    requires InDrain(s, cl) && s.drains[cl].cursor.Read? && Intact(s.drains[cl])
    ensures var c := s.drains[cl].cursor;
            InLocals(s, c.head) && (c.next.Some? ==> InLocals(s, c.next.value))
  {
    var d := s.drains[cl];
    assert d.local[0] in d.local;
    assert |d.local| > 1 ==> d.local[1] in d.local;
  }

  lemma TidyStep(s: ListState, e: ListEvent)
    requires Steady(s) && Tidy(s) && ListEnabled(s, e) && (e.Step? ==> Safe(s.core, e.event)) && !InTheWindow(s, e)
    ensures OwnFlowLive(s, e) && Tidy(ListNext(s, e))
  {
    hide Publishers, ListContexts, LocalContexts, Drains, FlaggedLate, SkippedLate, WindowsLive, LocalsLive, AllIntact,
      UnlinkedGone, EarlyListsLive, ListGood, ListNext, Safe, OwnFlowLive, Tears;
    OwnAccess(s, e);
    WindowsLiveStep(s, e);
    LocalsLiveStep(s, e);
    IntactAfter(s, e);
    UnlinkedGoneStep(s, e);
    EarlyListsLiveStep(s, e);
  }

  // ---- a deletion in a window is fatal ----

  lemma DeadStaysDead(s: ListState, e: ListEvent, w: FlowId)
    requires ListGood(s) && ListEnabled(s, e) && (e.Step? ==> Safe(s.core, e.event)) && InWindow(s, w) && !Live(s, w)
    ensures !Live(ListNext(s, e), w)
  {
    assert InUse(s, w);
    hide ListNext, Safe, InUse, Good;
    FlowWasLive(s, e, w);
  }

  lemma WindowAfterStep(s: ListState, e: Event, w: FlowId)
    requires Steady(s) && ListEnabled(s, Step(e)) && Safe(s.core, e) && InWindow(s, w)
    ensures InWindow(AfterStep(s, e), w)
  {
    hide Next, Safe, ListGood, ListContexts, LocalContexts, FlaggedLate, SkippedLate;
    var r := AfterStep(s, e);
    if w in s.unpublished.Values {
      var t :| t in s.unpublished && s.unpublished[t] == w;
      assert t in r.unpublished && r.unpublished[t] == w;
    } else {
      var cl :| InDrain(s, cl) && s.drains[cl].cursor == Holding(w);
      assert InDrain(r, cl) && r.drains[cl] == s.drains[cl];
    }
  }

  lemma WindowAfterPublish(s: ListState, t: ThreadId, w: FlowId)
    requires ListEnabled(s, Publish(t)) && InWindow(s, w) && s.unpublished[t] != w
    ensures InWindow(ListNext(s, Publish(t)), w)
  {
    var r := ListNext(s, Publish(t));
    assert forall cl :: InDrain(r, cl) <==> InDrain(s, cl);
    if w in s.unpublished.Values {
      var u :| u in s.unpublished && s.unpublished[u] == w;
      assert u in r.unpublished && r.unpublished[u] == w;
    }
  }

  lemma WindowAfterDrain(s: ListState, e: ListEvent, w: FlowId)
    requires ListEnabled(s, e) && OfDrain(e) && InWindow(s, w) && !Live(s, w) && OwnFlowLive(s, e)
    ensures InWindow(ListNext(s, e), w)
  {
    hide Intact;
    var r := ListNext(s, e);
    if w !in s.unpublished.Values {
      var cl :| InDrain(s, cl) && s.drains[cl].cursor == Holding(w);
      assert InDrain(r, cl) && r.drains[cl].cursor == Holding(w);
    }
  }

  /** While every step finds its own flow live, a dead flow in a window stays in it. */
  lemma DeadStaysInWindow(s: ListState, e: ListEvent, w: FlowId)
    requires Steady(s) && ListEnabled(s, e) && (e.Step? ==> Safe(s.core, e.event)) && OwnFlowLive(s, e)
    requires InWindow(s, w) && !Live(s, w)
    ensures InWindow(ListNext(s, e), w) && !Live(ListNext(s, e), w)
  {
    hide InWindow, Next, Safe, AfterStep, ListGood, Publishers, ListContexts, LocalContexts, Drains, FlaggedLate,
      SkippedLate, InUse;
    DeadStaysDead(s, e, w);
    match e
    case Step(core) => WindowAfterStep(s, core, w);
    case Publish(t) => WindowAfterPublish(s, t, w);
    case Unlink(t) => UnlinkInWindow(s, t, w);
    case _ => WindowAfterDrain(s, e, w);
  }

  // ---- a torn list is fatal ----

  /** The drain has found a list not empty that is empty now, or has read an entry that is no longer on it. */
  predicate Torn(d: Drain) {
    d.Draining? &&
      match d.cursor
      case Tested => d.local == []
      case Read(head, next) => head !in d.local || (next.Some? && next.value !in d.local)
      case _ => false
  }

  lemma TearsTorn(d: Drain, w: FlowId)
    requires Intact(d) && Expects(d, w)
    ensures Torn(WithoutInDrain(d, w))
  {
    IntactExactly(d, w);
    WithoutMembers(d.local, w, w);
  }

  lemma TornStaysTorn(d: Drain, w: FlowId)
    requires Torn(d)
    ensures Torn(WithoutInDrain(d, w))
  {
    if d.cursor.Read? {
      WithoutMembers(d.local, w, d.cursor.head);
      if d.cursor.next.Some? {
        WithoutMembers(d.local, w, d.cursor.next.value);
      }
    }
  }

  lemma TornNotIntact(d: Drain)
    requires Torn(d)
    ensures !Intact(d)
  {
    if d.cursor.Read? && d.local != [] {
      assert d.local[0] in d.local;
      assert |d.local| > 1 ==> d.local[1] in d.local;
    }
  }

  lemma TornAfter(s: ListState, e: ListEvent, cl: ClientId)
    requires Steady(s) && ListEnabled(s, e) && (e.Step? ==> Safe(s.core, e.event)) && OwnFlowLive(s, e)
    requires cl in s.drains && Torn(s.drains[cl])
    ensures cl in ListNext(s, e).drains && Torn(ListNext(s, e).drains[cl])
  {
    hide Next, Safe, ListGood, Publishers, ListContexts, LocalContexts, Drains, FlaggedLate, SkippedLate, Intact, Torn,
      AfterStep, OwnFlowLive, AfterUnlink;
    match e
    case Step(core) => TornAfterStep(s, core, cl);
    case Publish(_) =>
    case Unlink(t) => TornAfterUnlink(s, t, cl);
    case _ => TornAfterDrain(s, e, cl);
  }

  lemma TornAfterStep(s: ListState, e: Event, cl: ClientId)
    requires Drains(s) && ListEnabled(s, Step(e)) && Safe(s.core, e) && cl in s.drains && Torn(s.drains[cl])
    ensures cl in AfterStep(s, e).drains && Torn(AfterStep(s, e).drains[cl])
  {
    hide Next, Safe;
    assert InDrain(s, cl);
  }

  lemma TornAfterUnlink(s: ListState, t: ThreadId, cl: ClientId)
    requires t in s.core.threads && s.core.threads[t].FlowDelete? && cl in s.drains && Torn(s.drains[cl])
    ensures cl in AfterUnlink(s, t).drains && Torn(AfterUnlink(s, t).drains[cl])
  {
    TornStaysTorn(s.drains[cl], s.core.threads[t].flow);
    hide Torn, WithoutInDrain;
  }

  lemma TornAfterDrain(s: ListState, e: ListEvent, cl: ClientId)
    requires ListEnabled(s, e) && OfDrain(e) && OwnFlowLive(s, e) && cl in s.drains && Torn(s.drains[cl])
    ensures cl in ListNext(s, e).drains && Torn(ListNext(s, e).drains[cl])
  {
    TornNotIntact(s.drains[cl]);
    hide Intact;
  }

  lemma TearsLeavesTorn(s: ListState, e: ListEvent) returns (cl: ClientId)
    requires AllIntact(s) && ListEnabled(s, e) && Tears(s, e)
    ensures e.Unlink? && cl in ListNext(s, e).drains && Torn(ListNext(s, e).drains[cl])
  {
    cl :| cl in s.drains && Expects(s.drains[cl], s.core.threads[e.thread].flow);
    TearsTorn(s.drains[cl], s.core.threads[e.thread].flow);
  }

  /** No classify call is about to publish, and no drain is under way. */
  ghost predicate Rest(s: ListState) {
    s.unpublished == map[] && forall cl :: !InDrain(s, cl)
  }

  lemma RestHasNoWindow(s: ListState, w: FlowId)
    requires Rest(s)
    ensures !InWindow(s, w)
  {
    assert s.unpublished.Values == {};
  }

  lemma RestHasNoDrain(s: ListState, cl: ClientId)
    requires Rest(s)
    ensures cl in s.drains ==> !Torn(s.drains[cl])
  {
    assert !InDrain(s, cl);
  }

  ghost predicate AllOwnLive(s: ListState, run: seq<ListEvent>)
    requires CoreSafe(s, run)
    decreases |run|
  {
    run != [] ==> OwnFlowLive(s, run[0]) && AllOwnLive(ListNext(s, run[0]), run[1..])
  }

  ghost predicate NoneInTheWindow(s: ListState, run: seq<ListEvent>)
    requires CoreSafe(s, run)
    decreases |run|
  {
    run != [] ==> !InTheWindow(s, run[0]) && NoneInTheWindow(ListNext(s, run[0]), run[1..])
  }

  /** A dead flow in a window is accessed before everything comes to rest. */
  lemma {:induction false} DeadIsAccessed(s: ListState, run: seq<ListEvent>, w: FlowId)
    requires Steady(s) && CoreSafe(s, run) && InWindow(s, w) && !Live(s, w) && Rest(StateAfter(s, run))
    ensures !AllOwnLive(s, run)
    decreases |run|
  {
    if run == [] {
      RestHasNoWindow(s, w);
    } else if OwnFlowLive(s, run[0]) {
      hide Steady, InWindow, ListNext, ListEnabled, Safe, OwnFlowLive, Live;
      SteadyStep(s, run[0]);
      DeadStaysInWindow(s, run[0], w);
      DeadIsAccessed(ListNext(s, run[0]), run[1..], w);
    }
  }

  /** A torn list is met by its drain before everything comes to rest. */
  lemma {:induction false} TornIsAccessed(s: ListState, run: seq<ListEvent>, cl: ClientId)
    requires Steady(s) && CoreSafe(s, run) && cl in s.drains && Torn(s.drains[cl]) && Rest(StateAfter(s, run))
    ensures !AllOwnLive(s, run)
    decreases |run|
  {
    if run == [] {
      RestHasNoDrain(s, cl);
    } else if OwnFlowLive(s, run[0]) {
      hide Steady, Torn, ListNext, ListEnabled, Safe, OwnFlowLive, Live;
      SteadyStep(s, run[0]);
      TornAfter(s, run[0], cl);
      TornIsAccessed(ListNext(s, run[0]), run[1..], cl);
    }
  }

  lemma {:induction false} WindowsExactlyFrom(s: ListState, run: seq<ListEvent>)
    requires Steady(s) && Tidy(s) && CoreSafe(s, run) && Rest(StateAfter(s, run))
    ensures AllOwnLive(s, run) <==> NoneInTheWindow(s, run)
    decreases |run|
  {
    if run != [] {
      var e := run[0];
      hide Steady, Tidy, ListNext, ListEnabled, Safe, OwnFlowLive, InWindow, Tears;
      SteadyStep(s, e);
      if EarlyUnlink(s, e) {
        EarlyUnlinkIsUnsafe(s, e);
      } else if Tears(s, e) {
        TidyIsIntact(s);
        var cl := TearsLeavesTorn(s, e);
        TornIsAccessed(ListNext(s, e), run[1..], cl);
      } else if InTheWindow(s, e) {
        DeletedInWindow(s, e);
        DeadIsAccessed(ListNext(s, e), run[1..], s.core.threads[e.event.thread].flow);
      } else {
        TidyStep(s, e);
        WindowsExactlyFrom(ListNext(s, e), run[1..]);
      }
    }
  }

  lemma TidyIsIntact(s: ListState)
    requires Tidy(s)
    ensures AllIntact(s)
  {
  }

  lemma DeletedInWindow(s: ListState, e: ListEvent)
    requires Steady(s) && ListEnabled(s, e) && (e.Step? ==> Safe(s.core, e.event)) && InTheWindow(s, e)
    requires !EarlyUnlink(s, e) && !Tears(s, e)
    ensures e.Step? && e.event.DeleteFlow?
    ensures var w := s.core.threads[e.event.thread].flow;
            InWindow(ListNext(s, e), w) && !Live(ListNext(s, e), w)
  {
    hide Next, Safe, Steady, ListNext, AfterStep;
    FlowsAfter(s.core, e.event);
    CoreFlowsAfter(s, e);
    WindowAfterStep(s, e.event, s.core.threads[e.event.thread].flow);
    IsAfterStep(s, e);
  }

  lemma IsAfterStep(s: ListState, e: ListEvent)
    requires ListEnabled(s, e) && e.Step? && Safe(s.core, e.event)
    ensures ListNext(s, e) == AfterStep(s, e.event)
  {
    hide AfterStep, Safe, Next;
  }

  lemma StartIsTidy()
    ensures Steady(START) && Tidy(START)
  {
    StartIsGood();
    assert START.unpublished.Values == {};
  }

  /** In every run that comes to rest, every classify call, flow-delete call and drain finds its own flow contexts live
      and in place, if and only if no flow is deleted between its association and its publication, or between the
      drain's taking it off the list and its removal call, and none is unlinked before its publication, or while the
      drain takes it or the one before it off: between its read of them and its write of the links, or between its
      test of the list and its read when it is the only one. */
  lemma WindowsExactly(run: seq<ListEvent>)
    requires IsRun(START, run)
    ensures CoreSafe(START, run)
    ensures Rest(StateAfter(START, run)) ==> (AllOwnLive(START, run) <==> NoneInTheWindow(START, run))
  {
    StartIsTidy();
    RunIsGood(START, run);
    if Rest(StateAfter(START, run)) {
      WindowsExactlyFrom(START, run);
    }
  }
}

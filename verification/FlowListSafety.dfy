/** When the accesses to flow contexts are safe: exactly as long as no flow context is freed while somebody still refers
    to it, and none is taken off a list before it is on one or while a drain is taking it off. */
module FlowListSafety {
  import HookLifetimeParts
  import opened Wrappers
  import opened HookLifetime
  import opened HookLifetimeRuns
  import opened FlowLists

  // ---- references to flow contexts ----

  ghost predicate InLists(s: ListState, w: FlowId) {
    exists c :: c in s.lists && w in s.lists[c]
  }

  ghost predicate InLocals(s: ListState, w: FlowId) {
    exists cl :: InDrain(s, cl) && w in s.drains[cl].local
  }

  predicate Names(c: Cursor, w: FlowId) {
    match c
    case Read(head, next) => head == w || next == Some(w)
    case Holding(flow) => flow == w
    case _ => false
  }

  /** A drain has read the flow as the first or the second of its list, or holds it. */
  ghost predicate AtHand(s: ListState, w: FlowId) {
    exists cl :: InDrain(s, cl) && Names(s.drains[cl].cursor, w)
  }

  ghost predicate AllIntact(s: ListState) {
    forall cl :: cl in s.drains ==> Intact(s.drains[cl])
  }

  /** A classify call will still insert the flow, a list holds it, or a drain will still read it. */
  ghost predicate InUse(s: ListState, w: FlowId) {
    w in s.unpublished.Values || InLists(s, w) || InLocals(s, w) || AtHand(s, w)
  }

  ghost predicate NoDangling(s: ListState) {
    forall w: FlowId :: InUse(s, w) ==> Live(s, w)
  }

  // ---- the invariant ----

  /** Flow contexts have names of their own, and one that is referred to is no longer its maker's. */
  ghost predicate Named(s: ListState) {
    && (forall w :: w in s.core.flows ==> w < s.born)
    && (forall w: FlowId :: InUse(s, w) ==> w < s.born && (w in s.core.flows ==> !s.core.flows[w].owner.MadeBy?))
  }

  ghost predicate ListGood(s: ListState) {
    Good(s.core) && Named(s)
  }

  // ---- flows after a step of the lifetime protocol ----

  ghost function Made(e: Event): set<FlowId> {
    if e.MakeFlow? then {e.flow} else {}
  }

  ghost function Freed(s: State, e: Event): set<FlowId>
    requires Enabled(s, e)
  {
    match e
    case DropFlow(t) => {s.threads[t].at.flow}
    case DeleteFlow(t) => {s.threads[t].flow}
    case _ => {}
  }

  lemma FlowsAfter(s: State, e: Event)
    requires Enabled(s, e) && Safe(s, e)
    ensures Next(s, e).flows.Keys == s.flows.Keys + Made(e) - Freed(s, e)
  {
    HookLifetimeParts.FlowsAfter(s, e);
    hide Next;
  }

  lemma OwnersAfter(s: State, e: Event, w: FlowId)
    requires Enabled(s, e) && Safe(s, e) && w in s.flows && w in Next(s, e).flows
    ensures Next(s, e).flows[w].owner == s.flows[w].owner || !Next(s, e).flows[w].owner.MadeBy?
    ensures Next(s, e).flows[w].context == s.flows[w].context || e.AssociateFlow?
  {
    HookLifetimeParts.FlowsAfter(s, e);
    hide Next;
  }

  // ---- references after a step ----

  lemma {:induction false} WithoutMembers(list: seq<FlowId>, w: FlowId, v: FlowId)
    ensures v in Without(list, w) <==> v in list && v != w
  {
    if list != [] {
      WithoutMembers(list[1..], w, v);
    }
  }

  lemma UnlinkReferences(s: ListState, t: ThreadId, v: FlowId)
    requires t in s.core.threads && s.core.threads[t].FlowDelete?
    ensures InLists(AfterUnlink(s, t), v) <==> InLists(s, v) && v != s.core.threads[t].flow
    ensures InLocals(AfterUnlink(s, t), v) <==> InLocals(s, v) && v != s.core.threads[t].flow
    ensures AtHand(AfterUnlink(s, t), v) <==> AtHand(s, v)
  {
    var r, w := AfterUnlink(s, t), s.core.threads[t].flow;
    forall c | c in s.lists ensures v in r.lists[c] <==> v in s.lists[c] && v != w {
      WithoutMembers(s.lists[c], w, v);
    }
    forall cl | InDrain(s, cl) ensures v in r.drains[cl].local <==> v in s.drains[cl].local && v != w {
      WithoutMembers(s.drains[cl].local, w, v);
    }
    assert forall cl :: InDrain(r, cl) <==> InDrain(s, cl);
    if InLists(s, v) && v != w {
      var c :| c in s.lists && v in s.lists[c];
      assert c in r.lists && v in r.lists[c];
    }
    if InLocals(s, v) && v != w {
      var cl :| InDrain(s, cl) && v in s.drains[cl].local;
      assert InDrain(r, cl) && v in r.drains[cl].local;
    }
    if AtHand(s, v) {
      var cl :| InDrain(s, cl) && Names(s.drains[cl].cursor, v);
      assert InDrain(r, cl) && Names(r.drains[cl].cursor, v);
    }
  }

  /** The flow that a step begins to refer to. */
  ghost predicate NewReference(s: ListState, e: ListEvent, w: FlowId)
    requires ListEnabled(s, e)
  {
    e.Step? && e.event.AssociateFlow? && s.core.threads[e.event.thread].at.flow == w
  }

  lemma StepReferences(s: ListState, e: Event, w: FlowId)
    requires Enabled(s.core, e) && Safe(s.core, e) && InUse(AfterStep(s, e), w)
    ensures InUse(s, w) || (e.AssociateFlow? && s.core.threads[e.thread].at.flow == w)
  {
    hide Next;
  }

  lemma PublishReferences(s: ListState, t: ThreadId, w: FlowId)
    requires ListEnabled(s, Publish(t)) && InUse(ListNext(s, Publish(t)), w)
    ensures InUse(s, w)
  {
    assert s.unpublished[t] in s.unpublished.Values;
  }

  predicate OfDrain(e: ListEvent) {
    !e.Step? && !e.Publish? && !e.Unlink?
  }

  lemma DrainReferences(s: ListState, e: ListEvent, w: FlowId)
    requires ListEnabled(s, e) && OfDrain(e) && InUse(ListNext(s, e), w)
    ensures InUse(s, w)
  {
    var r, cl := ListNext(s, e), e.client;
    assert forall k :: k != cl ==> (InDrain(r, k) <==> InDrain(s, k)) && (InDrain(s, k) ==> r.drains[k] == s.drains[k]);
    if e.TakeList? {
      var c := s.core.clients[cl].context;
      assert w in s.lists[c] ==> InLists(s, w);
    } else {
      assert InDrain(s, cl);
    }
  }

  lemma ReferencesAfter(s: ListState, e: ListEvent, w: FlowId)
    requires ListEnabled(s, e) && (e.Step? ==> Safe(s.core, e.event)) && InUse(ListNext(s, e), w)
    ensures InUse(s, w) || NewReference(s, e, w)
  {
    hide InUse, Next, Safe, AfterStep;
    match e
    case Step(core) => StepReferences(s, core, w);
    case Publish(t) => PublishReferences(s, t, w);
    case Unlink(t) => UnlinkedReferences(s, t, w);
    case _ => DrainReferences(s, e, w);
  }

  lemma UnlinkedReferences(s: ListState, t: ThreadId, w: FlowId)
    requires t in s.core.threads && s.core.threads[t].FlowDelete? && InUse(AfterUnlink(s, t), w)
    ensures InUse(s, w)
  {
    UnlinkReferences(s, t, w);
  }

  // ---- one step ----

  /** A flow context is freed while it is referred to, taken off a list before it is on one, or taken off the local list
      of a drain that is about to take it off itself. */
  ghost predicate EarlyDelete(s: ListState, e: ListEvent)
    requires ListEnabled(s, e)
  {
    e.Step? && e.event.DeleteFlow? && InUse(s, s.core.threads[e.event.thread].flow)
  }

  ghost predicate EarlyUnlink(s: ListState, e: ListEvent)
    requires ListEnabled(s, e)
  {
    e.Unlink? && s.core.threads[e.thread].flow in s.unpublished.Values
  }

  /** The flow is the only one left on a list that the drain has found not empty, or one of the two that it has read. */
  predicate Expects(d: Drain, w: FlowId) {
    d.Draining? &&
      match d.cursor
      case Tested => forall v :: v in d.local ==> v == w
      case Read(head, next) => head == w || next == Some(w)
      case _ => false
  }

  ghost predicate Tears(s: ListState, e: ListEvent)
    requires ListEnabled(s, e)
  {
    e.Unlink? && exists cl :: cl in s.drains && Expects(s.drains[cl], s.core.threads[e.thread].flow)
  }

  ghost predicate Early(s: ListState, e: ListEvent)
    requires ListEnabled(s, e)
  {
    EarlyDelete(s, e) || EarlyUnlink(s, e) || Tears(s, e)
  }

  /** Removing a flow that is not among the first two leaves these. */
  lemma WithoutLater(list: seq<FlowId>, w: FlowId)
    requires list != [] && list[0] != w && Second(list) != Some(w)
    ensures Without(list, w) != [] && Without(list, w)[0] == list[0] && Second(Without(list, w)) == Second(list)
  {
    if |list| > 1 {
      assert list[1..][0] == list[1] && Without(list[1..], w)[0] == list[1];
    }
  }

  /** An unlink leaves the local list of a drain as its loop found it, exactly when it is not of a flow that it expects. */
  lemma IntactExactly(d: Drain, w: FlowId)
    requires Intact(d)
    ensures Intact(WithoutInDrain(d, w)) <==> !Expects(d, w)
  {
    if d.Draining? && d.cursor.Tested? {
      var after := Without(d.local, w);
      forall v ensures v in after <==> v in d.local && v != w {
        WithoutMembers(d.local, w, v);
      }
      assert after != [] ==> after[0] in after;
      if !Expects(d, w) {
        var v :| v in d.local && v != w;
        assert v in after;
      }
    } else if d.Draining? && d.cursor.Read? {
      if Expects(d, w) {
        WithoutMembers(d.local, w, w);
        var after := Without(d.local, w);
        assert after != [] ==> after[0] in after;
        assert |after| > 1 ==> after[1] in after;
      } else {
        WithoutLater(d.local, w);
      }
    }
  }

  lemma UnlinkIntact(s: ListState, t: ThreadId)
    requires ListEnabled(s, Unlink(t)) && AllIntact(s)
    ensures AllIntact(ListNext(s, Unlink(t))) <==> !Tears(s, Unlink(t))
  {
    var w, r := s.core.threads[t].flow, AfterUnlink(s, t);
    hide Intact, Expects, WithoutInDrain;
    forall cl | cl in s.drains ensures Intact(r.drains[cl]) <==> !Expects(s.drains[cl], w) {
      IntactExactly(s.drains[cl], w);
    }
    if Tears(s, Unlink(t)) {
      var cl :| cl in s.drains && Expects(s.drains[cl], w);
      assert cl in r.drains && !Intact(r.drains[cl]);
    }
  }

  lemma DrainIntact(s: ListState, e: ListEvent)
    requires ListEnabled(s, e) && AllIntact(s) && OfDrain(e)
    ensures AllIntact(ListNext(s, e))
  {
    var r := ListNext(s, e);
    forall cl | cl in r.drains ensures Intact(r.drains[cl]) {
      if cl != e.client {
        assert r.drains[cl] == s.drains[cl];
      }
    }
  }

  /** Only a torn unlink disturbs a drain. */
  lemma IntactAfter(s: ListState, e: ListEvent)
    requires ListEnabled(s, e) && (e.Step? ==> Safe(s.core, e.event)) && AllIntact(s)
    ensures AllIntact(ListNext(s, e)) <==> !Tears(s, e)
  {
    hide Intact, Expects, Next, Safe, Enabled;
    match e
    case Step(core) =>
    case Publish(t) =>
    case Unlink(t) => UnlinkIntact(s, t);
    case _ => DrainIntact(s, e);
  }

  lemma CoreFlowsAfter(s: ListState, e: ListEvent)
    requires ListEnabled(s, e) && (e.Step? ==> Safe(s.core, e.event))
    ensures var r := ListNext(s, e);
            && r.born == (if e.Step? && e.event.MakeFlow? then e.event.flow + 1 else s.born)
            && (if e.Step? then r.core == Next(s.core, e.event) else r.core == s.core)
  {
    hide Next, Safe;
  }

  lemma FlowNotMade(s: ListState, e: ListEvent, w: FlowId)
    requires ListGood(s) && ListEnabled(s, e) && (e.Step? ==> Safe(s.core, e.event))
    requires InUse(ListNext(s, e), w)
    ensures w < ListNext(s, e).born
    ensures w in ListNext(s, e).core.flows ==> !ListNext(s, e).core.flows[w].owner.MadeBy?
  {
    hide InUse, Good, ListNext, Next, Safe, Allows, Enabled;
    ReferencesAfter(s, e, w);
    CoreFlowsAfter(s, e);
    EnabledCore(s, e);
    if e.Step? {
      StepNotMade(s, e.event, w);
    }
  }

  lemma StepNotMade(s: ListState, e: Event, w: FlowId)
    requires ListGood(s) && Enabled(s.core, e) && Safe(s.core, e) && (e.MakeFlow? ==> e.flow >= s.born)
    requires InUse(s, w) || (e.AssociateFlow? && s.core.threads[e.thread].at.flow == w)
    ensures w < s.born
    ensures w in Next(s.core, e).flows ==> !Next(s.core, e).flows[w].owner.MadeBy?
  {
    hide InUse, Next, Good;
    HookLifetimeParts.FlowsAfter(s.core, e);
    if e.AssociateFlow? {
      FlowOfMaker(s.core, e.thread);
    }
  }

  lemma EnabledCore(s: ListState, e: ListEvent)
    requires ListEnabled(s, e)
    ensures e.Step? ==> Enabled(s.core, e.event) && (e.event.MakeFlow? ==> e.event.flow >= s.born)
  {
    hide Enabled;
  }

  lemma NamedStep(s: ListState, e: ListEvent)
    requires ListGood(s) && ListEnabled(s, e) && (e.Step? ==> Safe(s.core, e.event))
    ensures Named(ListNext(s, e))
  {
    hide InUse, Good, ListNext, Next, Safe, Enabled, ListEnabled;
    var r := ListNext(s, e);
    forall w: FlowId | InUse(r, w) ensures w < r.born && (w in r.core.flows ==> !r.core.flows[w].owner.MadeBy?) {
      FlowNotMade(s, e, w);
    }
    CoreFlowsAfter(s, e);
    EnabledCore(s, e);
    if e.Step? {
      FlowsAfter(s.core, e.event);
    }
  }

  /** A step of the lifetime protocol keeps it, whatever happened to the flow lists. */
  lemma ListStepIsGood(s: ListState, e: ListEvent)
    requires ListGood(s) && ListEnabled(s, e)
    ensures (e.Step? ==> Safe(s.core, e.event)) && ListGood(ListNext(s, e))
  {
    hide Good, Named, Next, Safe, Enabled, ListNext, ListEnabled;
    EnabledCore(s, e);
    if e.Step? {
      StepIsGood(s.core, e.event);
    }
    NamedStep(s, e);
    CoreFlowsAfter(s, e);
  }

  /** Without dangling references, the flow contexts that a step touches are live, unless it unlinks too early. */
  lemma CleanAccess(s: ListState, e: ListEvent)
    requires ListGood(s) && NoDangling(s) && AllIntact(s) && ListEnabled(s, e) && !EarlyUnlink(s, e)
    ensures OwnFlowLive(s, e) && LinksLive(s, e)
  {
    hide Good, Enabled, Next;
    match e
    case Publish(t) => PublishAccess(s, t);
    case Unlink(t) => UnlinkAccess(s, t);
    case TakeList(cl) => ListLive(s, s.core.clients[cl].context);
    case ReadHead(cl) => LocalLive(s, cl);
    case Relink(cl) => LocalLive(s, cl);
    case RemoveFlow(cl) => assert AtHand(s, s.drains[cl].cursor.flow);
    case _ =>
  }

  lemma ListLive(s: ListState, c: ContextId)
    requires NoDangling(s) && c in s.lists
    ensures forall i :: 0 <= i < |s.lists[c]| ==> Live(s, s.lists[c][i])
  {
    forall i | 0 <= i < |s.lists[c]| ensures Live(s, s.lists[c][i]) {
      assert InLists(s, s.lists[c][i]);
    }
  }

  lemma LocalLive(s: ListState, cl: ClientId)
    requires NoDangling(s) && InDrain(s, cl)
    ensures forall i :: 0 <= i < |s.drains[cl].local| ==> Live(s, s.drains[cl].local[i])
  {
    forall i | 0 <= i < |s.drains[cl].local| ensures Live(s, s.drains[cl].local[i]) {
      assert InLocals(s, s.drains[cl].local[i]);
    }
  }

  lemma AllNeighboursLive(s: ListState, list: seq<FlowId>, w: FlowId)
    requires forall i :: 0 <= i < |list| ==> Live(s, list[i])
    ensures NeighboursLive(s, list, w)
  {
  }

  lemma PublishAccess(s: ListState, t: ThreadId)
    requires NoDangling(s) && ListEnabled(s, Publish(t))
    ensures OwnFlowLive(s, Publish(t)) && LinksLive(s, Publish(t))
  {
    assert s.unpublished[t] in s.unpublished.Values;
    ListLive(s, s.core.threads[t].context);
  }

  lemma UnlinkAccess(s: ListState, t: ThreadId)
    requires ListGood(s) && NoDangling(s) && ListEnabled(s, Unlink(t)) && !EarlyUnlink(s, Unlink(t))
    ensures OwnFlowLive(s, Unlink(t)) && LinksLive(s, Unlink(t))
  {
    FlowInHand(s.core, t);
    hide Good, Named, NoDangling, NeighboursLive;
    forall c | c in s.lists ensures NeighboursLive(s, s.lists[c], s.core.threads[t].flow) {
      ListLive(s, c);
      AllNeighboursLive(s, s.lists[c], s.core.threads[t].flow);
    }
    forall cl | InDrain(s, cl) ensures NeighboursLive(s, s.drains[cl].local, s.core.threads[t].flow) {
      LocalLive(s, cl);
      AllNeighboursLive(s, s.drains[cl].local, s.core.threads[t].flow);
    }
  }

  /** A flow-delete call holds its flow until it frees it. */
  lemma FlowInHand(s: State, t: ThreadId)
    requires Good(s) && t in s.threads && s.threads[t].FlowDelete? && !s.threads[t].at.Leaving?
    ensures s.threads[t].flow in s.flows && s.flows[s.threads[t].flow] == Flow(s.threads[t].context, DeletedBy(t))
  {
    assert ThreadOk(s, t, s.threads[t]);
  }

  /** A flow that a classify call made and has not associated. */
  lemma FlowOfMaker(s: State, t: ThreadId)
    requires Good(s) && t in s.threads && s.threads[t].at.WithFlow?
    ensures s.threads[t].at.flow in s.flows && s.flows[s.threads[t].at.flow] == Flow(s.threads[t].context, MadeBy(t))
  {
    assert ThreadOk(s, t, s.threads[t]);
  }

  /** Only an early delete leaves a dangling reference behind. */
  lemma CleanStays(s: ListState, e: ListEvent)
    requires ListGood(s) && NoDangling(s) && ListEnabled(s, e) && !EarlyDelete(s, e) && (e.Step? ==> Safe(s.core, e.event))
    ensures NoDangling(ListNext(s, e))
  {
    hide InUse, Good, Next, ListNext, Safe;
    CoreFlowsAfter(s, e);
    forall w: FlowId | InUse(ListNext(s, e), w) ensures Live(ListNext(s, e), w) {
      ReferencesAfter(s, e, w);
      if e.Step? {
        FlowsAfter(s.core, e.event);
        if e.event.DropFlow? || e.event.AssociateFlow? {
          FlowOfMaker(s.core, e.event.thread);
        }
      }
    }
  }

  /** An early delete does leave one. */
  lemma EarlyDeleteDangles(s: ListState, e: ListEvent)
    requires ListGood(s) && ListEnabled(s, e) && EarlyDelete(s, e) && Safe(s.core, e.event)
    ensures !NoDangling(ListNext(s, e))
  {
    var w := s.core.threads[e.event.thread].flow;
    FlowsAfter(s.core, e.event);
    CoreFlowsAfter(s, e);
    StillReferenced(s, e, w);
  }

  lemma StillReferenced(s: ListState, e: ListEvent, w: FlowId)
    requires ListEnabled(s, e) && e.Step? && e.event.DeleteFlow? && Safe(s.core, e.event) && InUse(s, w)
    ensures InUse(ListNext(s, e), w)
  {
    var r := ListNext(s, e);
    hide Next;
    assert r.lists == s.lists && r.drains == s.drains && r.unpublished == s.unpublished;
    assert forall cl :: InDrain(r, cl) == InDrain(s, cl);
  }

  // ---- runs ----

  ghost predicate IsRun(s: ListState, run: seq<ListEvent>)
    decreases |run|
  {
    run == [] ||
    (ListEnabled(s, run[0]) && ((run[0].Step? ==> Safe(s.core, run[0].event)) ==> IsRun(ListNext(s, run[0]), run[1..])))
  }

  /** The lifetime protocol is safe along the run; so the states of the run are well defined. */
  ghost predicate CoreSafe(s: ListState, run: seq<ListEvent>)
    decreases |run|
  {
    run != [] ==>
      ListEnabled(s, run[0]) && (run[0].Step? ==> Safe(s.core, run[0].event)) && CoreSafe(ListNext(s, run[0]), run[1..])
  }

  lemma {:induction false} RunIsGood(s: ListState, run: seq<ListEvent>)
    requires ListGood(s) && IsRun(s, run)
    ensures CoreSafe(s, run)
    decreases |run|
  {
    hide ListGood, ListNext, ListEnabled, Safe;
    if run != [] {
      ListStepIsGood(s, run[0]);
      RunIsGood(ListNext(s, run[0]), run[1..]);
    }
  }

  ghost function StateAfter(s: ListState, run: seq<ListEvent>): ListState
    requires CoreSafe(s, run)
    decreases |run|
  {
    if run == [] then s else StateAfter(ListNext(s, run[0]), run[1..])
  }

  /** No reference to a freed flow context ever exists, no drain's list is disturbed, and every access is safe. */
  ghost predicate Clean(s: ListState, run: seq<ListEvent>)
    requires CoreSafe(s, run)
    decreases |run|
  {
    NoDangling(s) && AllIntact(s) && (run != [] ==> ListSafe(s, run[0]) && Clean(ListNext(s, run[0]), run[1..]))
  }

  ghost predicate NoEarly(s: ListState, run: seq<ListEvent>)
    requires CoreSafe(s, run)
    decreases |run|
  {
    run != [] ==> !Early(s, run[0]) && NoEarly(ListNext(s, run[0]), run[1..])
  }

  lemma {:induction false} CleanExactlyFrom(s: ListState, run: seq<ListEvent>)
    requires ListGood(s) && NoDangling(s) && AllIntact(s) && CoreSafe(s, run)
    ensures Clean(s, run) <==> NoEarly(s, run)
    decreases |run|
  {
    if run != [] {
      var e := run[0];
      hide ListGood, NoDangling, AllIntact, ListNext, ListEnabled, Safe, OwnFlowLive, LinksLive, EarlyDelete, Tears;
      ListStepIsGood(s, e);
      IntactAfter(s, e);
      if EarlyDelete(s, e) {
        EarlyIsStep(s, e);
        EarlyDeleteDangles(s, e);
      } else if EarlyUnlink(s, e) {
        EarlyUnlinkIsUnsafe(s, e);
      } else if !Tears(s, e) {
        CleanAccess(s, e);
        CleanStays(s, e);
        CleanExactlyFrom(ListNext(s, e), run[1..]);
      }
    }
  }

  lemma EarlyIsStep(s: ListState, e: ListEvent)
    requires ListEnabled(s, e) && EarlyDelete(s, e)
    ensures e.Step?
  {
  }

  lemma EarlyUnlinkIsUnsafe(s: ListState, e: ListEvent)
    requires ListEnabled(s, e) && EarlyUnlink(s, e)
    ensures !OwnFlowLive(s, e)
  {
  }

  lemma StartIsGood()
    ensures ListGood(START) && NoDangling(START) && AllIntact(START)
  {
    assert START.unpublished.Values == {};
  }

  /** In every run, the references to flow contexts stay valid and all accesses are safe if and only if no flow context is
      freed while a classify call, a list or a drain refers to it, and none is unlinked before it is published or
      while a drain is about to take it, or its successor, off the local list. */
  lemma CleanExactly(run: seq<ListEvent>)
    requires IsRun(START, run)
    ensures CoreSafe(START, run) && (Clean(START, run) <==> NoEarly(START, run))
  {
    StartIsGood();
    RunIsGood(START, run);
    CleanExactlyFrom(START, run);
  }
}

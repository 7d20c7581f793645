/** Every step of the hook lifetime protocol touches live memory only and keeps the invariant. */
module HookLifetimeSafety {
  import opened HookLifetime

  // ---- what keeps an object alive ----

  /** A context holds its client until it has left. */
  lemma ContextPinsClient(s: State, c: ContextId)
    requires Pointers(s) && Endings(s) && RundownCounts(s) && (c in s.contexts || (c in s.dying && !s.dying[c].left))
    ensures var cl := if c in s.contexts then s.contexts[c].client else s.dying[c].client;
            cl in s.clients && s.clients[cl].rundown > 0
  {
  }

  /** A callback between enter and leave holds its client. */
  lemma HolderPinsClient(s: State, t: ThreadId)
    requires RundownCounts(s) && t in s.threads && s.threads[t].Holds() && s.threads[t].client in s.clients
    ensures s.clients[s.threads[t].client].rundown > 0
  {
    assert t in HoldersOf(s, s.threads[t].client);
  }

  lemma ThreadPointers(s: State, t: ThreadId)
    requires Pointers(s) && Threads(s) && t in s.threads
    ensures s.threads[t].client in s.clients
    ensures s.threads[t].Classify? || !s.threads[t].at.Leaving? ==>
              s.threads[t].context in s.contexts && s.contexts[s.threads[t].context].client == s.threads[t].client
    ensures s.threads[t].FlowDelete? && !s.threads[t].at.Leaving? ==> s.threads[t].flow in s.flows
    ensures s.threads[t].at.WithFlow? ==> s.threads[t].Classify? && s.threads[t].at.flow in s.flows
  {
  }

  lemma StepIsSafe(s: State, e: Event)
    requires Inv(s) && Enabled(s, e)
    ensures Safe(s, e)
  {
    match e
    case Check(t) => ThreadPointers(s, t);
    case Enter(t) => ThreadPointers(s, t);
    case Invoke(t) => ThreadPointers(s, t);
    case MakeFlow(t, w) => ThreadPointers(s, t);
    case AssociateFlow(t) => ThreadPointers(s, t);
    case DropFlow(t) => ThreadPointers(s, t);
    case DeleteFlow(t) => ThreadPointers(s, t);
    case Leave(t) => ThreadPointers(s, t); HolderPinsClient(s, t);
    case LeaveLast(c) => ContextPinsClient(s, c);
    case _ =>
  }

  // ---- steps that leave an aspect of the state alone ----

  ghost predicate SameFlowContexts(s: State, r: State) {
    r.flows.Keys == s.flows.Keys && forall w :: w in s.flows ==> r.flows[w].context == s.flows[w].context
  }

  ghost predicate SameContextClients(s: State, r: State) {
    r.contexts.Keys == s.contexts.Keys && forall c :: c in s.contexts ==> r.contexts[c].client == s.contexts[c].client
  }

  ghost predicate SameClientContexts(s: State, r: State) {
    r.clients.Keys == s.clients.Keys && forall k :: k in s.clients ==> r.clients[k].context == s.clients[k].context
  }

  ghost predicate SameGraph(s: State, r: State) {
    r.filters == s.filters && r.dying == s.dying && SameFlowContexts(s, r) && SameContextClients(s, r) && SameClientContexts(s, r)
  }

  ghost predicate SameReferences(s: State, r: State)
    requires SameGraph(s, r)
  {
    && (forall c :: c in s.contexts ==> r.contexts[c].references == s.contexts[c].references)
    && (forall k :: k in s.clients ==> r.clients[k].phase.HoldsInitial() == s.clients[k].phase.HoldsInitial())
  }

  ghost predicate SameHolders(s: State, r: State) {
    forall k :: HoldersOf(r, k) == HoldersOf(s, k)
  }

  ghost predicate SameRundown(s: State, r: State)
    requires SameGraph(s, r)
  {
    && (forall k :: k in s.clients ==> r.clients[k].rundown == s.clients[k].rundown)
    && SameHolders(s, r)
  }

  lemma SameFlowsOf(s: State, r: State, c: ContextId)
    requires SameFlowContexts(s, r)
    ensures FlowsOf(r, c) == FlowsOf(s, c)
  {
  }

  lemma PointersFrame(s: State, r: State)
    requires Pointers(s) && SameGraph(s, r)
    ensures Pointers(r)
  {
  }

  lemma EndingsFrame(s: State, r: State)
    requires Endings(s) && SameGraph(s, r)
    ensures Endings(r)
  {
  }

  lemma ReferencesFrame(s: State, r: State)
    requires Pointers(s) && ReferenceCounts(s) && SameGraph(s, r) && SameReferences(s, r)
    ensures ReferenceCounts(r)
  {
    forall c | c in r.contexts
      ensures r.contexts[c].references == Sources(r, c) && r.contexts[c].references > 0
    {
      SameFlowsOf(s, r, c);
      assert FiltersOf(r, c) == FiltersOf(s, c);
      assert Initial(r, c) == Initial(s, c);
    }
  }

  lemma RundownSame(s: State, r: State)
    requires RundownCounts(s) && r.clients.Keys == s.clients.Keys && r.threads == s.threads
    requires forall k :: k in s.clients ==> r.clients[k].rundown == s.clients[k].rundown
    requires forall k :: k in s.clients ==> ContextHolds(r, k) == ContextHolds(s, k)
    ensures RundownCounts(r)
  {
    hide ContextHolds;
    forall k | k in r.clients ensures HoldersOf(r, k) == HoldersOf(s, k) {
    }
  }

  lemma RundownFrame(s: State, r: State)
    requires RundownCounts(s) && SameGraph(s, r) && SameRundown(s, r)
    ensures RundownCounts(r)
  {
  }

  lemma PhasesFrame(s: State, r: State)
    requires Phases(s) && SameGraph(s, r)
    requires forall k :: k in s.clients ==>
               && (r.clients[k].phase.HoldsInitial() ==> s.clients[k].phase.HoldsInitial())
               && (r.clients[k].phase.RunDown? ==> r.clients[k].rundown == 0)
    ensures Phases(r)
  {
  }

  /** A step that changes callbacks only, and no holder. */
  lemma CallbacksOnly(s: State, r: State)
    requires Inv(s) && r == s.(threads := r.threads) && SameHolders(s, r) && Threads(r)
    ensures Inv(r)
  {
    hide ThreadOk, Pointers, Endings, ReferenceCounts, RundownCounts, Threads, Phases;
    assert SameGraph(s, r) && SameReferences(s, r) && SameRundown(s, r);
    PointersFrame(s, r);
    EndingsFrame(s, r);
    ReferencesFrame(s, r);
    RundownFrame(s, r);
    assert Phases(r) by {
      PhasesSame(s, r);
    }
  }

  lemma PhasesSame(s: State, r: State)
    requires Phases(s) && r.clients == s.clients && r.contexts == s.contexts
    ensures Phases(r)
  {
  }

  lemma ArriveClassifyThreads(s: State, t: ThreadId, f: FilterId)
    requires Pointers(s) && Threads(s) && t !in s.threads && f in s.filters
    ensures Threads(AfterArriveClassify(s, t, f)) && SameHolders(s, AfterArriveClassify(s, t, f))
  {
  }

  lemma ArriveClassifyKeeps(s: State, t: ThreadId, f: FilterId)
    requires Inv(s) && t !in s.threads && f in s.filters
    ensures Inv(AfterArriveClassify(s, t, f))
  {
    ArriveClassifyThreads(s, t, f);
    CallbacksOnly(s, AfterArriveClassify(s, t, f));
  }

  lemma CheckThreads(s: State, t: ThreadId)
    requires Threads(s) && t in s.threads && s.threads[t].at.Arrived?
    ensures s.threads[t].context in s.contexts && Threads(AfterCheck(s, t)) && SameHolders(s, AfterCheck(s, t))
  {
  }

  lemma CheckKeeps(s: State, t: ThreadId)
    requires Inv(s) && t in s.threads && s.threads[t].at.Arrived?
    ensures s.threads[t].context in s.contexts && Inv(AfterCheck(s, t))
  {
    CheckThreads(s, t);
    CallbacksOnly(s, AfterCheck(s, t));
  }

  lemma FlowOwnersOnly(s: State, r: State)
    requires Inv(s) && r == s.(threads := r.threads, flows := r.flows)
    requires SameFlowContexts(s, r) && SameHolders(s, r) && Threads(r)
    ensures Inv(r)
  {
    hide ThreadOk, Pointers, Endings, ReferenceCounts, RundownCounts, Threads, Phases;
    assert SameGraph(s, r) && SameReferences(s, r) && SameRundown(s, r);
    PointersFrame(s, r);
    EndingsFrame(s, r);
    ReferencesFrame(s, r);
    RundownFrame(s, r);
    PhasesSame(s, r);
  }

  lemma ArriveFlowDeleteThreads(s: State, t: ThreadId, w: FlowId)
    requires Pointers(s) && Threads(s) && t !in s.threads && w in s.flows && s.flows[w].owner.Associated?
    ensures s.flows[w].context in s.contexts && SameFlowContexts(s, AfterArriveFlowDelete(s, t, w))
    ensures Threads(AfterArriveFlowDelete(s, t, w)) && SameHolders(s, AfterArriveFlowDelete(s, t, w))
  {
  }

  lemma ArriveFlowDeleteKeeps(s: State, t: ThreadId, w: FlowId)
    requires Inv(s) && t !in s.threads && w in s.flows && s.flows[w].owner.Associated?
    ensures Inv(AfterArriveFlowDelete(s, t, w))
  {
    assert s.flows[w].context in s.contexts;
    hide Pointers, Endings, ThreadOk, ReferenceCounts, RundownCounts, Threads, Phases, SameHolders, SameFlowContexts;
    ArriveFlowDeleteThreads(s, t, w);
    FlowOwnersOnly(s, AfterArriveFlowDelete(s, t, w));
  }

  lemma AssociateFlowThreads(s: State, t: ThreadId)
    requires Threads(s) && t in s.threads && s.threads[t].at.WithFlow?
    ensures Threads(AfterAssociateFlow(s, t)) && SameHolders(s, AfterAssociateFlow(s, t))
    ensures SameFlowContexts(s, AfterAssociateFlow(s, t))
  {
  }

  lemma AssociateFlowKeeps(s: State, t: ThreadId)
    requires Inv(s) && t in s.threads && s.threads[t].at.WithFlow?
    ensures Inv(AfterAssociateFlow(s, t))
  {
    AssociateFlowThreads(s, t);
    FlowOwnersOnly(s, AfterAssociateFlow(s, t));
  }

  // ---- entering and leaving rundown protection ----

  lemma RundownChange(s: State, r: State, cl: ClientId)
    requires RundownCounts(s) && SameGraph(s, r) && cl in s.clients
    requires forall k :: k in s.clients && k != cl ==>
               r.clients[k].rundown == s.clients[k].rundown && HoldersOf(r, k) == HoldersOf(s, k)
    requires r.clients[cl].rundown - s.clients[cl].rundown == |HoldersOf(r, cl)| - |HoldersOf(s, cl)|
    ensures RundownCounts(r)
  {
  }

  lemma HoldersOnly(s: State, r: State, cl: ClientId, n: nat)
    requires Inv(s) && r == s.(threads := r.threads, clients := r.clients) && cl in s.clients
    requires r.clients == s.clients[cl := s.clients[cl].(rundown := n)]
    requires s.clients[cl].phase.RunDown? ==> n == 0
    requires forall k :: k in s.clients && k != cl ==> HoldersOf(r, k) == HoldersOf(s, k)
    requires n - s.clients[cl].rundown == |HoldersOf(r, cl)| - |HoldersOf(s, cl)|
    requires Threads(r)
    ensures Inv(r)
  {
    assert SameGraph(s, r) && SameReferences(s, r);
    PointersFrame(s, r);
    EndingsFrame(s, r);
    ReferencesFrame(s, r);
    RundownChange(s, r, cl);
    PhasesFrame(s, r);
  }

  lemma EnterThreads(s: State, t: ThreadId)
    requires Pointers(s) && Threads(s) && t in s.threads && s.threads[t].at.Checked?
    ensures s.threads[t].client in s.clients && Threads(AfterEnter(s, t))
  {
  }

  lemma EnterHolders(s: State, t: ThreadId)
    requires t in s.threads && s.threads[t].at.Checked? && s.threads[t].client in s.clients
    ensures forall k :: k != s.threads[t].client ==> HoldersOf(AfterEnter(s, t), k) == HoldersOf(s, k)
    ensures var cl := s.threads[t].client;
            HoldersOf(AfterEnter(s, t), cl)
            == if s.clients[cl].phase.AllowsEnter() then HoldersOf(s, cl) + {t} else HoldersOf(s, cl)
  {
  }

  lemma EnterKeeps(s: State, t: ThreadId)
    requires Inv(s) && t in s.threads && s.threads[t].at.Checked?
    ensures s.threads[t].client in s.clients && Inv(AfterEnter(s, t))
  {
    hide ThreadOk, Pointers, Endings, ReferenceCounts, RundownCounts, Threads, Phases, HoldersOf;
    EnterThreads(s, t);
    EnterHolders(s, t);
    var r, cl := AfterEnter(s, t), s.threads[t].client;
    if s.clients[cl].phase.AllowsEnter() {
      NotHolding(s, t);
      HoldersOnly(s, r, cl, s.clients[cl].rundown + 1);
    } else {
      CallbacksOnly(s, r);
    }
  }

  lemma NotHolding(s: State, t: ThreadId)
    requires t in s.threads
    ensures t in HoldersOf(s, s.threads[t].client) <==> s.threads[t].Holds()
  {
  }

  lemma LeaveThreads(s: State, t: ThreadId)
    requires Threads(s) && t in s.threads && s.threads[t].client in s.clients
    requires s.clients[s.threads[t].client].rundown > 0
    ensures Threads(AfterLeave(s, t))
  {
  }

  lemma LeaveHolders(s: State, t: ThreadId)
    requires t in s.threads && s.threads[t].Holds() && s.threads[t].client in s.clients
    requires s.clients[s.threads[t].client].rundown > 0
    ensures forall k :: k != s.threads[t].client ==> HoldersOf(AfterLeave(s, t), k) == HoldersOf(s, k)
    ensures HoldersOf(AfterLeave(s, t), s.threads[t].client) == HoldersOf(s, s.threads[t].client) - {t}
  {
  }

  lemma NotRunDown(s: State, cl: ClientId)
    requires Phases(s) && cl in s.clients && s.clients[cl].rundown > 0
    ensures !s.clients[cl].phase.RunDown?
  {
  }

  lemma LeaveKeeps(s: State, t: ThreadId)
    requires Inv(s) && t in s.threads && s.threads[t].Holds() && s.threads[t].client in s.clients
    requires s.clients[s.threads[t].client].rundown > 0
    ensures Inv(AfterLeave(s, t))
  {
    hide ThreadOk, Pointers, Endings, ReferenceCounts, RundownCounts, Threads, Phases, HoldersOf;
    var cl := s.threads[t].client;
    NotRunDown(s, cl);
    LeaveThreads(s, t);
    LeaveHolders(s, t);
    NotHolding(s, t);
    HoldersOnly(s, AfterLeave(s, t), cl, s.clients[cl].rundown - 1);
  }

  // ---- dropping a reference ----

  /** Every counter is right, except that context c has one reference too many. */
  ghost predicate OneTooMany(m: State, c: ContextId) {
    && c in m.contexts
    && forall k :: k in m.contexts ==>
         && m.contexts[k].references == Sources(m, k) + (if k == c then 1 else 0)
         && m.contexts[k].references > 0
  }

  lemma DereferencedPointers(m: State, c: ContextId)
    requires Pointers(m) && CanDereference(m, c) && OneTooMany(m, c)
    ensures Pointers(Dereferenced(m, c))
  {
    if m.contexts[c].references == 1 {
      LastReference(m, c);
    }
    hide OneTooMany;
  }

  /** The one reference too many was the last: no filter and no flow points to the context. */
  lemma LastReference(m: State, c: ContextId)
    requires OneTooMany(m, c) && m.contexts[c].references == 1
    ensures forall f :: f in m.filters ==> m.filters[f] != c
    ensures forall w :: w in m.flows ==> m.flows[w].context != c
  {
    assert FiltersOf(m, c) == {} && FlowsOf(m, c) == {};
    assert forall f :: f in m.filters ==> f in FiltersOf(m, m.filters[f]);
    assert forall w :: w in m.flows ==> w in FlowsOf(m, m.flows[w].context);
  }

  lemma DereferencedEndings(m: State, c: ContextId)
    requires Pointers(m) && Endings(m) && CanDereference(m, c)
    ensures Endings(Dereferenced(m, c))
  {
  }

  lemma DereferencedReferences(m: State, c: ContextId)
    requires Pointers(m) && CanDereference(m, c) && OneTooMany(m, c)
    ensures ReferenceCounts(Dereferenced(m, c))
  {
  }

  lemma DereferencedRundown(m: State, c: ContextId)
    requires Pointers(m) && Endings(m) && RundownCounts(m) && CanDereference(m, c)
    ensures RundownCounts(Dereferenced(m, c))
  {
    hide RundownCounts;
    RundownSame(m, Dereferenced(m, c));
  }

  lemma DereferencedThread(m: State, c: ContextId, t: ThreadId)
    requires Pointers(m) && CanDereference(m, c) && OneTooMany(m, c)
    requires t in m.threads && ThreadOk(m, t, m.threads[t])
    ensures ThreadOk(Dereferenced(m, c), t, m.threads[t])
  {
    if m.contexts[c].references == 1 {
      LastReference(m, c);
    }
  }

  lemma DereferencedPhases(m: State, c: ContextId)
    requires Pointers(m) && Phases(m) && CanDereference(m, c) && OneTooMany(m, c)
    ensures Phases(Dereferenced(m, c))
  {
  }

  /** Dereferencing repairs the one counter that is too high, also when it drops the last reference and the context
      begins to die. */
  lemma DereferenceRestores(m: State, c: ContextId)
    requires Pointers(m) && Endings(m) && RundownCounts(m) && Threads(m) && Phases(m)
    requires CanDereference(m, c) && OneTooMany(m, c)
    ensures Inv(Dereferenced(m, c))
  {
    var r := Dereferenced(m, c);
    assert r.threads == m.threads;
    forall t | t in m.threads ensures ThreadOk(r, t, m.threads[t]) {
      DereferencedThread(m, c, t);
    }
    hide Pointers, Endings, ReferenceCounts, RundownCounts, Phases, OneTooMany, Dereferenced, ThreadOk;
    DereferencedPointers(m, c);
    DereferencedEndings(m, c);
    DereferencedReferences(m, c);
    DereferencedRundown(m, c);
    DereferencedPhases(m, c);
  }

  // ---- a filter is deleted ----

  lemma FilterGone(s: State, f: FilterId)
    requires Pointers(s) && ReferenceCounts(s) && f in s.filters
    ensures OneTooMany(s.(filters := s.filters - {f}), s.filters[f])
  {
    var m := s.(filters := s.filters - {f});
    hide Sources;
    forall k | k in m.contexts
      ensures m.contexts[k].references == Sources(m, k) + (if k == s.filters[f] then 1 else 0)
    {
      FilterGoneSources(s, f, k);
    }
  }

  lemma FilterGoneSources(s: State, f: FilterId, k: ContextId)
    requires f in s.filters
    ensures Sources(s, k) == Sources(s.(filters := s.filters - {f}), k) + (if k == s.filters[f] then 1 else 0)
  {
    var m := s.(filters := s.filters - {f});
    assert FiltersOf(m, k) == FiltersOf(s, k) - {f};
    assert FlowsOf(m, k) == FlowsOf(s, k);
    assert f in FiltersOf(s, k) <==> k == s.filters[f];
  }

  lemma FilterGoneRest(s: State, f: FilterId)
    requires Inv(s) && Enabled(s, FilterDeleted(f))
    ensures var m := s.(filters := s.filters - {f});
            Pointers(m) && Endings(m) && RundownCounts(m) && Threads(m) && Phases(m)
  {
    hide ThreadOk, Threads, ReferenceCounts, RundownCounts, Phases;
    FilterGoneThreads(s, f);
    var m := s.(filters := s.filters - {f});
    RundownSame(s, m);
    PhasesSame(s, m);
  }

  lemma FilterGoneThreads(s: State, f: FilterId)
    requires Threads(s) && Enabled(s, FilterDeleted(f))
    ensures Threads(s.(filters := s.filters - {f}))
  {
  }

  lemma FilterDeletedKeeps(s: State, f: FilterId)
    requires Inv(s) && Enabled(s, FilterDeleted(f)) && CanDereference(s, s.filters[f])
    ensures Inv(AfterFilterDeleted(s, f))
  {
    hide Pointers, Endings, ReferenceCounts, RundownCounts, Phases, OneTooMany, Dereferenced, Threads;
    FilterGone(s, f);
    FilterGoneRest(s, f);
    DereferenceRestores(s.(filters := s.filters - {f}), s.filters[f]);
  }

  // ---- the initial reference is dropped ----

  lemma InitialGone(s: State, cl: ClientId)
    requires Inv(s) && cl in s.clients && s.clients[cl].phase.Flagged?
    ensures OneTooMany(InPhase(s, cl, CleanedUp), s.clients[cl].context)
  {
  }

  /** A phase change that keeps or gives up the initial reference leaves everything but the counters. */
  lemma PhaseOnly(s: State, cl: ClientId, phase: Phase)
    requires Inv(s) && cl in s.clients
    requires phase.HoldsInitial() ==> s.clients[cl].phase.HoldsInitial()
    requires phase.RunDown? ==> s.clients[cl].rundown == 0
    ensures var m := InPhase(s, cl, phase);
            Pointers(m) && Endings(m) && RundownCounts(m) && Threads(m) && Phases(m)
  {
    hide ThreadOk, Threads, ReferenceCounts, RundownCounts;
    PhaseOnlyThreads(s, cl, phase);
    var m := InPhase(s, cl, phase);
    assert SameGraph(s, m) && SameRundown(s, m);
    PointersFrame(s, m);
    EndingsFrame(s, m);
    RundownFrame(s, m);
    PhasesFrame(s, m);
  }

  lemma PhaseOnlyThreads(s: State, cl: ClientId, phase: Phase)
    requires Threads(s) && cl in s.clients
    ensures Threads(InPhase(s, cl, phase))
  {
  }

  lemma DropInitialKeeps(s: State, cl: ClientId)
    requires Inv(s) && cl in s.clients && s.clients[cl].phase.Flagged? && CanDereference(s, s.clients[cl].context)
    ensures Inv(AfterDropInitial(s, cl))
  {
    hide Pointers, Endings, ReferenceCounts, RundownCounts, Phases, OneTooMany, Dereferenced, Threads;
    InitialGone(s, cl);
    PhaseOnly(s, cl, CleanedUp);
    DereferenceRestores(InPhase(s, cl, CleanedUp), s.clients[cl].context);
  }

  /** The other phase changes of a detach. */
  lemma InPhaseKeeps(s: State, cl: ClientId, phase: Phase)
    requires Inv(s) && cl in s.clients && phase.HoldsInitial() == s.clients[cl].phase.HoldsInitial()
    requires phase.RunDown? ==> s.clients[cl].rundown == 0
    ensures Inv(InPhase(s, cl, phase))
  {
    hide RundownCounts, Phases, Threads, Pointers, Endings, ReferenceCounts;
    PhaseOnly(s, cl, phase);
    PhaseReferences(s, cl, phase);
  }

  lemma PhaseReferences(s: State, cl: ClientId, phase: Phase)
    requires Pointers(s) && ReferenceCounts(s) && cl in s.clients
    requires phase.HoldsInitial() == s.clients[cl].phase.HoldsInitial()
    ensures ReferenceCounts(InPhase(s, cl, phase))
  {
    ReferencesFrame(s, InPhase(s, cl, phase));
  }

  // ---- a flow context is freed ----

  lemma FlowGone(s: State, m: State, w: FlowId, c: ContextId)
    requires Pointers(s) && ReferenceCounts(s) && w in s.flows && s.flows[w].context == c
    requires m == s.(flows := s.flows - {w}, threads := m.threads)
    ensures OneTooMany(m, c) && Pointers(m)
  {
    hide Sources;
    forall k | k in m.contexts
      ensures m.contexts[k].references == Sources(m, k) + (if k == c then 1 else 0)
    {
      FlowGoneSources(s, m, w, c, k);
    }
  }

  lemma FlowGoneSources(s: State, m: State, w: FlowId, c: ContextId, k: ContextId)
    requires w in s.flows && s.flows[w].context == c && m == s.(flows := s.flows - {w}, threads := m.threads)
    ensures Sources(s, k) == Sources(m, k) + (if k == c then 1 else 0)
  {
    assert FiltersOf(m, k) == FiltersOf(s, k) && Initial(m, k) == Initial(s, k);
    FlowRemoved(s, m, w, k);
  }

  lemma FlowRemoved(s: State, m: State, w: FlowId, k: ContextId)
    requires w in s.flows && m.flows == s.flows - {w}
    ensures |FlowsOf(s, k)| == |FlowsOf(m, k)| + (if k == s.flows[w].context then 1 else 0)
  {
    var before, after := FlowsOf(s, k), FlowsOf(m, k);
    assert w !in after && (w in before <==> k == s.flows[w].context);
    assert forall v :: v != w ==> (v in after <==> v in before);
    assert before - {w} == after;
  }

  lemma FlowGoneThreads(s: State, m: State, t: ThreadId, w: FlowId)
    requires Threads(s) && w in s.flows && (s.flows[w].owner == MadeBy(t) || s.flows[w].owner == DeletedBy(t))
    requires m == s.(flows := s.flows - {w}, threads := m.threads)
    requires m.threads - {t} == s.threads - {t}
    requires t in m.threads ==> ThreadOk(m, t, m.threads[t])
    ensures Threads(m)
  {
    forall u | u in m.threads && u != t ensures ThreadOk(m, u, m.threads[u]) {
      assert u in m.threads - {t};
      assert (m.threads - {t})[u] == (s.threads - {t})[u];
      assert ThreadOk(s, u, s.threads[u]);
    }
  }

  /** Freeing a flow context and dropping its reference, by the callback that owns it. */
  lemma FreeFlowKeeps(s: State, m: State, t: ThreadId, w: FlowId, c: ContextId)
    requires Inv(s) && w in s.flows && s.flows[w].context == c
    requires s.flows[w].owner == MadeBy(t) || s.flows[w].owner == DeletedBy(t)
    requires m == s.(flows := s.flows - {w}, threads := m.threads) && m.threads - {t} == s.threads - {t}
    requires t in m.threads ==> ThreadOk(m, t, m.threads[t])
    requires SameHolders(s, m) && CanDereference(m, c)
    ensures Inv(Dereferenced(m, c))
  {
    hide Pointers, ReferenceCounts, OneTooMany, Dereferenced, Threads, ThreadOk;
    assert RundownCounts(m) && Phases(m) && Endings(m) by {
      assert forall k :: ContextAlive(m, k) == ContextAlive(s, k) && ContextHolds(m, k) == ContextHolds(s, k);
    }
    hide RundownCounts, Phases;
    FlowGone(s, m, w, c);
    FlowGoneThreads(s, m, t, w);
    DereferenceRestores(m, c);
  }

  lemma DropFlowThread(s: State, t: ThreadId)
    requires Threads(s) && t in s.threads && s.threads[t].at.WithFlow?
    ensures var w, c := s.threads[t].at.flow, s.threads[t].context;
            var m := MovedTo(s.(flows := s.flows - {w}), t, Leaving);
            && w in s.flows && s.flows[w] == Flow(c, MadeBy(t))
            && ThreadOk(m, t, m.threads[t]) && SameHolders(s, m) && m.threads - {t} == s.threads - {t}
  {
  }

  lemma DropFlowKeeps(s: State, t: ThreadId)
    requires Inv(s) && t in s.threads && s.threads[t].at.WithFlow? && CanDereference(s, s.threads[t].context)
    ensures Inv(AfterDropFlow(s, t))
  {
    hide Pointers, Endings, ReferenceCounts, Dereferenced, Threads, RundownCounts, Phases, SameHolders, ThreadOk;
    var w, c := s.threads[t].at.flow, s.threads[t].context;
    DropFlowThread(s, t);
    FreeFlowKeeps(s, MovedTo(s.(flows := s.flows - {w}), t, Leaving), t, w, c);
  }

  lemma WithoutFlowThread(s: State, t: ThreadId)
    requires Pointers(s) && Threads(s) && Enabled(s, DeleteFlow(t))
    ensures var th, m := s.threads[t], WithoutFlow(s, t);
            && th.flow in s.flows && s.flows[th.flow] == Flow(th.context, DeletedBy(t))
            && (t in m.threads ==> ThreadOk(m, t, m.threads[t]))
            && SameHolders(s, m) && m.threads - {t} == s.threads - {t}
  {
  }

  lemma DeleteFlowKeeps(s: State, t: ThreadId)
    requires Inv(s) && Enabled(s, DeleteFlow(t)) && CanDereference(s, s.threads[t].context)
    ensures Inv(AfterDeleteFlow(s, t))
  {
    hide Pointers, Endings, ReferenceCounts, Dereferenced, Threads, RundownCounts, Phases, SameHolders, ThreadOk;
    WithoutFlowThread(s, t);
    FreeFlowKeeps(s, WithoutFlow(s, t), t, s.threads[t].flow, s.threads[t].context);
  }

  // ---- the remaining steps ----

  lemma MakeFlowPointers(s: State, t: ThreadId, w: FlowId)
    requires Pointers(s) && t in s.threads && s.threads[t].context in s.contexts
    ensures Pointers(AfterMakeFlow(s, t, w))
  {
  }

  lemma MakeFlowReferences(s: State, t: ThreadId, w: FlowId)
    requires ReferenceCounts(s) && t in s.threads && s.threads[t].context in s.contexts && w !in s.flows
    ensures ReferenceCounts(AfterMakeFlow(s, t, w))
  {
    var r := AfterMakeFlow(s, t, w);
    var flow := Flow(s.threads[t].context, MadeBy(t));
    assert r.flows == s.flows[w := flow] && r.filters == s.filters && r.clients == s.clients;
    assert SameContextClients(s, r);
    hide Sources;
    forall k | k in r.contexts
      ensures r.contexts[k].references == Sources(r, k) && r.contexts[k].references > 0
    {
      FlowAddedSources(s, r, w, flow, k);
    }
  }

  lemma FlowAddedSources(s: State, r: State, w: FlowId, flow: Flow, k: ContextId)
    requires w !in s.flows && r.flows == s.flows[w := flow]
    requires r.filters == s.filters && r.clients == s.clients && SameContextClients(s, r)
    ensures Sources(r, k) == Sources(s, k) + (if k == flow.context then 1 else 0)
  {
    assert FiltersOf(r, k) == FiltersOf(s, k);
    FlowAdded(s, r, w, flow, k);
  }

  lemma FlowAdded(s: State, r: State, w: FlowId, flow: Flow, k: ContextId)
    requires w !in s.flows && r.flows == s.flows[w := flow]
    ensures |FlowsOf(r, k)| == |FlowsOf(s, k)| + (if k == flow.context then 1 else 0)
  {
    var before, after := FlowsOf(s, k), FlowsOf(r, k);
    assert w !in before && (w in after <==> flow.context == k);
    assert forall v :: v != w ==> (v in after <==> v in before);
    assert after - {w} == before;
  }

  lemma MakeFlowThreads(s: State, t: ThreadId, w: FlowId)
    requires Pointers(s) && Threads(s) && Enabled(s, MakeFlow(t, w)) && s.threads[t].context in s.contexts
    ensures Threads(AfterMakeFlow(s, t, w)) && SameHolders(s, AfterMakeFlow(s, t, w))
  {
  }

  lemma MakeFlowKeeps(s: State, t: ThreadId, w: FlowId)
    requires Inv(s) && Enabled(s, MakeFlow(t, w))
    ensures s.threads[t].context in s.contexts && Inv(AfterMakeFlow(s, t, w))
  {
    hide Pointers, ReferenceCounts, Threads, ThreadOk, HoldersOf;
    ThreadPointers(s, t);
    MakeFlowPointers(s, t, w);
    MakeFlowReferences(s, t, w);
    MakeFlowThreads(s, t, w);
    var r := AfterMakeFlow(s, t, w);
    assert forall k :: ContextAlive(r, k) == ContextAlive(s, k) && ContextHolds(r, k) == ContextHolds(s, k);
  }

  lemma SetDetachedKeeps(s: State, cl: ClientId)
    requires Inv(s) && cl in s.clients && s.clients[cl].phase.DetachStarted?
    ensures s.clients[cl].context in s.contexts && Inv(AfterSetDetached(s, cl))
  {
    assert ContextAlive(s, cl);
    hide Pointers, Endings, ReferenceCounts, Threads, ThreadOk, RundownCounts, Phases;
    InPhaseKeeps(s, cl, Flagged);
    FlagOnly(InPhase(s, cl, Flagged), s.clients[cl].context);
  }

  lemma FlagOnly(s: State, c: ContextId)
    requires Inv(s) && c in s.contexts
    ensures Inv(s.(contexts := s.contexts[c := s.contexts[c].(detached := true)]))
  {
    hide Pointers, Endings, ReferenceCounts, Threads, ThreadOk, RundownCounts, Phases;
    var r := s.(contexts := s.contexts[c := s.contexts[c].(detached := true)]);
    FlagOnlyThreads(s, c);
    assert SameGraph(s, r) && SameReferences(s, r) && SameRundown(s, r);
    PointersFrame(s, r);
    EndingsFrame(s, r);
    ReferencesFrame(s, r);
    RundownFrame(s, r);
    FlagOnlyPhases(s, c);
  }

  lemma FlagOnlyPhases(s: State, c: ContextId)
    requires Phases(s) && c in s.contexts
    ensures Phases(s.(contexts := s.contexts[c := s.contexts[c].(detached := true)]))
  {
  }

  lemma FlagOnlyThreads(s: State, c: ContextId)
    requires Threads(s) && c in s.contexts
    ensures Threads(s.(contexts := s.contexts[c := s.contexts[c].(detached := true)]))
  {
  }

  // ---- the end of a context ----

  lemma LeaveLastRundown(s: State, c: ContextId)
    requires Endings(s) && RundownCounts(s) && c in s.dying && !s.dying[c].left
    requires s.dying[c].client in s.clients && s.clients[s.dying[c].client].rundown > 0
    ensures RundownCounts(AfterLeaveLast(s, c))
  {
    var r := AfterLeaveLast(s, c);
    forall k | k in r.clients
      ensures r.clients[k].rundown == (if ContextHolds(r, k) then 1 else 0) + |HoldersOf(r, k)|
    {
      assert HoldersOf(r, k) == HoldersOf(s, k);
    }
  }

  lemma LeaveLastRest(s: State, c: ContextId)
    requires Inv(s) && c in s.dying && !s.dying[c].left
    requires s.dying[c].client in s.clients && s.clients[s.dying[c].client].rundown > 0
    ensures var r := AfterLeaveLast(s, c); Pointers(r) && Endings(r) && Threads(r) && Phases(r)
  {
    hide ReferenceCounts, RundownCounts;
  }

  lemma LeaveLastReferences(s: State, c: ContextId)
    requires Pointers(s) && ReferenceCounts(s) && c in s.dying
    requires s.dying[c].client in s.clients && s.clients[s.dying[c].client].rundown > 0
    ensures ReferenceCounts(AfterLeaveLast(s, c))
  {
    var r := AfterLeaveLast(s, c);
    forall k | k in r.contexts ensures Sources(r, k) == Sources(s, k) {
      assert FiltersOf(r, k) == FiltersOf(s, k) && FlowsOf(r, k) == FlowsOf(s, k) && Initial(r, k) == Initial(s, k);
    }
  }

  lemma LeaveLastKeeps(s: State, c: ContextId)
    requires Inv(s) && Enabled(s, LeaveLast(c)) && Safe(s, LeaveLast(c))
    ensures Inv(AfterLeaveLast(s, c))
  {
    hide Pointers, Endings, ReferenceCounts, Threads, ThreadOk, RundownCounts, Phases;
    LeaveLastRundown(s, c);
    LeaveLastReferences(s, c);
    LeaveLastRest(s, c);
  }

  lemma FreeContextKeeps(s: State, c: ContextId)
    requires Inv(s) && c in s.dying && s.dying[c].left
    ensures Inv(s.(dying := s.dying - {c}))
  {
    hide ReferenceCounts, Threads, ThreadOk, RundownCounts;
    FreeContextReferences(s, c);
    FreeContextThreads(s, c);
    FreeContextRundown(s, c);
    PhasesSame(s, s.(dying := s.dying - {c}));
    hide Phases;
  }

  lemma FreeContextRundown(s: State, c: ContextId)
    requires RundownCounts(s) && c in s.dying && s.dying[c].left
    ensures RundownCounts(s.(dying := s.dying - {c}))
  {
    var r := s.(dying := s.dying - {c});
    RundownSame(s, r);
  }

  lemma FreeContextReferences(s: State, c: ContextId)
    requires ReferenceCounts(s)
    ensures ReferenceCounts(s.(dying := s.dying - {c}))
  {
    var r := s.(dying := s.dying - {c});
    forall k | k in r.contexts ensures Sources(r, k) == Sources(s, k) {
      assert FiltersOf(r, k) == FiltersOf(s, k) && FlowsOf(r, k) == FlowsOf(s, k) && Initial(r, k) == Initial(s, k);
    }
  }

  lemma FreeContextThreads(s: State, c: ContextId)
    requires Threads(s)
    ensures Threads(s.(dying := s.dying - {c}))
  {
  }

  /** A client whose rundown is complete is not reachable from any context that has not left, or any callback. */
  lemma NobodyHolds(s: State, cl: ClientId)
    requires Inv(s) && cl in s.clients && s.clients[cl].rundown == 0
    ensures forall c :: c in s.contexts ==> s.contexts[c].client != cl
    ensures forall c :: c in s.dying && !s.dying[c].left ==> s.dying[c].client != cl
    ensures forall t :: t in s.threads ==> s.threads[t].client != cl
  {
    assert HoldersOf(s, cl) == {} && !ContextHolds(s, cl);
    forall t | t in s.threads ensures s.threads[t].client != cl {
      assert ThreadOk(s, t, s.threads[t]);
      assert s.threads[t].Holds() ==> t in HoldersOf(s, s.threads[t].client);
    }
  }

  lemma FreeClientKeeps(s: State, cl: ClientId)
    requires Inv(s) && cl in s.clients && s.clients[cl].phase.RunDown?
    ensures Inv(s.(clients := s.clients - {cl}))
  {
    NobodyHolds(s, cl);
    FreeClientCounts(s, cl);
    FreeClientThreads(s, cl);
    hide ReferenceCounts, RundownCounts, Threads, ThreadOk;
  }

  lemma FreeClientThreads(s: State, cl: ClientId)
    requires Threads(s) && forall t :: t in s.threads ==> s.threads[t].client != cl
    ensures Threads(s.(clients := s.clients - {cl}))
  {
  }

  lemma FreeClientCounts(s: State, cl: ClientId)
    requires Pointers(s) && Endings(s) && ReferenceCounts(s) && RundownCounts(s)
    requires forall c :: c in s.contexts ==> s.contexts[c].client != cl
    requires forall c :: c in s.dying && !s.dying[c].left ==> s.dying[c].client != cl
    ensures ReferenceCounts(s.(clients := s.clients - {cl})) && RundownCounts(s.(clients := s.clients - {cl}))
  {
  }

  lemma AttachCounts(s: State, cl: ClientId, c: ContextId, fs: set<FilterId>)
    requires Pointers(s) && ReferenceCounts(s) && Enabled(s, Attach(cl, c, fs))
    ensures ReferenceCounts(AfterAttach(s, cl, c, fs))
  {
    var r := AfterAttach(s, cl, c, fs);
    hide Sources;
    forall k | k in r.contexts
      ensures r.contexts[k].references == Sources(r, k) && r.contexts[k].references > 0
    {
      AttachSources(s, cl, c, fs, k);
    }
  }

  lemma AttachSources(s: State, cl: ClientId, c: ContextId, fs: set<FilterId>, k: ContextId)
    requires Pointers(s) && Enabled(s, Attach(cl, c, fs)) && (k == c || k in s.contexts)
    ensures Sources(AfterAttach(s, cl, c, fs), k) == if k == c then 1 + |fs| else Sources(s, k)
  {
    var r := AfterAttach(s, cl, c, fs);
    assert FlowsOf(r, k) == FlowsOf(s, k);
    if k == c {
      assert FiltersOf(r, c) == fs && FlowsOf(s, c) == {};
    } else {
      assert FiltersOf(r, k) == FiltersOf(s, k) && Initial(r, k) == Initial(s, k);
    }
  }

  lemma AttachPointers(s: State, cl: ClientId, c: ContextId, fs: set<FilterId>)
    requires Pointers(s) && Endings(s) && Enabled(s, Attach(cl, c, fs))
    ensures Pointers(AfterAttach(s, cl, c, fs)) && Endings(AfterAttach(s, cl, c, fs))
  {
  }

  lemma AttachRundown(s: State, cl: ClientId, c: ContextId, fs: set<FilterId>)
    requires Pointers(s) && RundownCounts(s) && Threads(s) && Enabled(s, Attach(cl, c, fs))
    ensures RundownCounts(AfterAttach(s, cl, c, fs))
  {
  }

  lemma AttachThreads(s: State, cl: ClientId, c: ContextId, fs: set<FilterId>)
    requires Threads(s) && Phases(s) && Enabled(s, Attach(cl, c, fs))
    ensures Threads(AfterAttach(s, cl, c, fs)) && Phases(AfterAttach(s, cl, c, fs))
  {
  }

  /** Every step keeps the invariant. */
  lemma StepKeeps(s: State, e: Event)
    requires Inv(s) && Enabled(s, e)
    ensures Safe(s, e) && Inv(Next(s, e))
  {
    hide Pointers, Endings, ReferenceCounts, Threads, ThreadOk, RundownCounts, Phases;
    StepIsSafe(s, e);
    match e
    case Attach(cl, c, fs) =>
      AttachCounts(s, cl, c, fs);
      AttachRundown(s, cl, c, fs);
      AttachThreads(s, cl, c, fs);
      AttachPointers(s, cl, c, fs);
    case ArriveClassify(t, f) => ArriveClassifyKeeps(s, t, f);
    case ArriveFlowDelete(t, w) => ArriveFlowDeleteKeeps(s, t, w);
    case Check(t) => CheckKeeps(s, t);
    case Enter(t) => EnterKeeps(s, t);
    case Invoke(t) =>
    case MakeFlow(t, w) => MakeFlowKeeps(s, t, w);
    case DropFlow(t) => DropFlowKeeps(s, t);
    case AssociateFlow(t) => AssociateFlowKeeps(s, t);
    case DeleteFlow(t) => DeleteFlowKeeps(s, t);
    case Leave(t) => LeaveKeeps(s, t);
    case FilterDeleted(f) => FilterDeletedKeeps(s, f);
    case LeaveLast(c) => LeaveLastKeeps(s, c);
    case FreeContext(c) => FreeContextKeeps(s, c);
    case StartDetach(cl) => InPhaseKeeps(s, cl, DetachStarted);
    case SetDetached(cl) => SetDetachedKeeps(s, cl);
    case DropInitial(cl) => DropInitialKeeps(s, cl);
    case StartWait(cl) => InPhaseKeeps(s, cl, Waiting);
    case FinishWait(cl) => InPhaseKeeps(s, cl, RunDown);
    case FreeClient(cl) => FreeClientKeeps(s, cl);
  }
}

/** Whole runs of the hook lifetime protocol: memory safety, the detach barrier, and completion of detach. */
module HookLifetimeRuns {
  import opened HookLifetime
  import HookLifetimeParts
  import HookLifetimeSafety

  // ---- every flow context has an owner that frees it ----

  ghost predicate Owned(s: State, w: FlowId)
    requires w in s.flows
  {
    match s.flows[w].owner
    case Associated => true
    case MadeBy(t) => t in s.threads && s.threads[t].Classify? && s.threads[t].at == WithFlow(w)
    case DeletedBy(t) => t in s.threads && s.threads[t].FlowDelete? && s.threads[t].flow == w && !s.threads[t].at.Leaving?
  }

  ghost predicate Owners(s: State) {
    forall w :: w in s.flows ==> Owned(s, w)
  }

  ghost predicate Good(s: State) {
    Inv(s) && Owners(s)
  }

  /** Only callback t moved: flows of other owners are still owned. */
  lemma OwnersFrame(s: State, r: State, t: ThreadId)
    requires Owners(s)
    requires forall u :: u in s.threads && u != t ==> u in r.threads && r.threads[u] == s.threads[u]
    requires forall w :: w in r.flows ==>
               || (w in s.flows && r.flows[w] == s.flows[w] && s.flows[w].owner != MadeBy(t) && s.flows[w].owner != DeletedBy(t))
               || Owned(r, w)
    ensures Owners(r)
  {
  }

  /** The callback owns at most the flow that its position names. */
  lemma OwnedFlow(s: State, t: ThreadId, w: FlowId)
    requires Owners(s) && t in s.threads && w in s.flows
    requires s.flows[w].owner == MadeBy(t) || s.flows[w].owner == DeletedBy(t)
    ensures s.threads[t].Classify? ==> s.threads[t].at == WithFlow(w)
    ensures s.threads[t].FlowDelete? ==> s.threads[t].flow == w && !s.threads[t].at.Leaving?
  {
  }

  lemma SameOwners(s: State, r: State)
    requires Owners(s) && r.flows == s.flows && r.threads == s.threads
    ensures Owners(r)
  {
  }

  /** The flow that callback t owned is gone or handed over. */
  lemma FlowTakenOwners(s: State, r: State, t: ThreadId, w: FlowId)
    requires Owners(s) && t in s.threads && w in s.flows
    requires (s.threads[t].Classify? && s.threads[t].at == WithFlow(w)) || (s.threads[t].FlowDelete?
             && s.threads[t].flow == w)
    requires forall u :: u in s.threads && u != t ==> u in r.threads && r.threads[u] == s.threads[u]
    requires r.flows - {w} == s.flows - {w} && (w in r.flows ==> r.flows[w].owner.Associated?)
    ensures Owners(r)
  {
    forall v | v in r.flows && v != w ensures v in s.flows && r.flows[v] == s.flows[v] {
      assert v in r.flows - {w} && (r.flows - {w})[v] == (s.flows - {w})[v];
    }
    forall v | v in s.flows && (s.flows[v].owner == MadeBy(t) || s.flows[v].owner == DeletedBy(t)) ensures v == w {
      OwnedFlow(s, t, v);
    }
    OwnersFrame(s, r, t);
  }

  lemma MakeFlowOwners(s: State, t: ThreadId, w: FlowId)
    requires Owners(s) && Enabled(s, MakeFlow(t, w)) && s.threads[t].context in s.contexts
    ensures Owners(AfterMakeFlow(s, t, w))
  {
  }

  lemma ArriveOwners(s: State, r: State, t: ThreadId)
    requires Owners(s) && t !in s.threads
    requires forall u :: u in s.threads ==> u in r.threads && r.threads[u] == s.threads[u]
    requires forall w :: w in r.flows ==> (w in s.flows && r.flows[w] == s.flows[w]) || Owned(r, w)
    ensures Owners(r)
  {
  }

  lemma StepOwners(s: State, e: Event)
    requires Owners(s) && Enabled(s, e) && Safe(s, e)
    ensures Owners(Next(s, e))
  {
    hide Owners, Owned, Dereferenced, GivesUp, AfterCheck, AfterEnter, AfterMakeFlow, AfterDropFlow, AfterDeleteFlow,
      AfterLeave,
      AfterFilterDeleted, AfterDropInitial, AfterArriveFlowDelete;
    match e
    case ArriveClassify(t, f) => ArriveOwners(s, AfterArriveClassify(s, t, f), t);
    case ArriveFlowDelete(t, w) => ArriveFlowDeleteOwners(s, t, w);
    case Check(t) => CheckOwners(s, t);
    case Enter(t) => EnterOwners(s, t);
    case Invoke(t) =>
    case MakeFlow(t, w) => MakeFlowOwners(s, t, w);
    case DropFlow(t) =>
      DropFlowOwners(s, t);
    case AssociateFlow(t) => FlowTakenOwners(s, AfterAssociateFlow(s, t), t, s.threads[t].at.flow);
    case DeleteFlow(t) => DeleteFlowOwners(s, t);
    case Leave(t) => LeaveOwners(s, t);
    case FilterDeleted(f) => FilterDeletedOwners(s, f);
    case DropInitial(cl) => DropInitialOwners(s, cl);
    case _ => OtherOwners(s, e);
  }

  lemma OtherOwners(s: State, e: Event)
    requires Owners(s) && Enabled(s, e) && Safe(s, e)
    requires e.Attach? || e.LeaveLast? || e.FreeContext? || e.StartDetach? || e.SetDetached? || e.StartWait?
             || e.FinishWait? || e.FreeClient?
    ensures Owners(Next(s, e))
  {
    HookLifetimeParts.FlowsAfter(s, e);
    HookLifetimeParts.ThreadsAfter(s, e);
    hide Next, Owners, Safe;
    SameOwners(s, Next(s, e));
  }

  lemma LeaveOwners(s: State, t: ThreadId)
    requires Owners(s) && Enabled(s, Leave(t)) && Safe(s, Leave(t))
    ensures Owners(AfterLeave(s, t))
  {
  }

  lemma FilterDeletedOwners(s: State, f: FilterId)
    requires Owners(s) && f in s.filters && CanDereference(s, s.filters[f])
    ensures Owners(AfterFilterDeleted(s, f))
  {
  }

  lemma DropInitialOwners(s: State, cl: ClientId)
    requires Owners(s) && cl in s.clients && CanDereference(s, s.clients[cl].context)
    ensures Owners(AfterDropInitial(s, cl))
  {
  }

  lemma CheckOwners(s: State, t: ThreadId)
    requires Owners(s) && Enabled(s, Check(t)) && s.threads[t].context in s.contexts
    ensures Owners(AfterCheck(s, t))
  {
  }

  lemma DropFlowOwners(s: State, t: ThreadId)
    requires Owners(s) && Enabled(s, DropFlow(t)) && Safe(s, DropFlow(t))
    ensures Owners(AfterDropFlow(s, t))
  {
  }

  lemma DeleteFlowOwners(s: State, t: ThreadId)
    requires Owners(s) && Enabled(s, DeleteFlow(t)) && Safe(s, DeleteFlow(t))
    ensures Owners(AfterDeleteFlow(s, t))
  {
  }

  lemma EnterOwners(s: State, t: ThreadId)
    requires Owners(s) && Enabled(s, Enter(t)) && s.threads[t].client in s.clients
    ensures Owners(AfterEnter(s, t))
  {
  }

  lemma ArriveFlowDeleteOwners(s: State, t: ThreadId, w: FlowId)
    requires Owners(s) && Enabled(s, ArriveFlowDelete(t, w)) && s.flows[w].context in s.contexts
    ensures Owners(AfterArriveFlowDelete(s, t, w))
  {
  }

  lemma StepIsGood(s: State, e: Event)
    requires Good(s) && Enabled(s, e)
    ensures Safe(s, e) && Good(Next(s, e))
  {
    hide Owners, Next;
    HookLifetimeSafety.StepKeeps(s, e);
    StepOwners(s, e);
  }

  // ---- runs ----

  /** Each event of the run can be the next one. Nothing is said about memory being live. */
  ghost predicate AllEnabled(s: State, run: seq<Event>)
    decreases |run|
  {
    run == [] || (Enabled(s, run[0]) && (Safe(s, run[0]) ==> AllEnabled(Next(s, run[0]), run[1..])))
  }

  /** Each event of the run touches live memory only. */
  ghost predicate AllSafe(s: State, run: seq<Event>)
    decreases |run|
  {
    run == [] || (Enabled(s, run[0]) && Safe(s, run[0]) && AllSafe(Next(s, run[0]), run[1..]))
  }

  ghost function After(s: State, run: seq<Event>): State
    requires AllSafe(s, run)
    decreases |run|
  {
    if run == [] then s else After(Next(s, run[0]), run[1..])
  }

  lemma {:induction false} RunFrom(s: State, run: seq<Event>)
    requires Good(s) && AllEnabled(s, run)
    ensures AllSafe(s, run) && Good(After(s, run))
    decreases |run|
  {
    hide Good, Next, Enabled, Safe;
    if run != [] {
      StepIsGood(s, run[0]);
      RunFrom(Next(s, run[0]), run[1..]);
    }
  }

  /** Every interleaving of attach, classify, flow, filter-delete and detach steps touches live clients and filter contexts
      only. */
  lemma RunsAreSafe(run: seq<Event>)
    requires AllEnabled(INITIAL, run)
    ensures AllSafe(INITIAL, run) && Good(After(INITIAL, run))
  {
    RunFrom(INITIAL, run);
  }

  // ---- the detach barrier ----

  /** The work item's wait is released exactly when the last reference on the filter context is gone, the one who dropped
      it has left, and no callback is in progress. The context itself may still be allocated then. */
  lemma WaitReleasedExactly(s: State, cl: ClientId)
    requires Good(s) && cl in s.clients && s.clients[cl].phase.Waiting?
    ensures Enabled(s, FinishWait(cl)) <==>
            && (forall c :: c in s.contexts ==> s.contexts[c].client != cl)
            && (forall c :: c in s.dying && !s.dying[c].left ==> s.dying[c].client != cl)
            && (forall t :: t in s.threads ==> s.threads[t].client != cl)
  {
    if s.clients[cl].rundown == 0 {
      HookLifetimeSafety.NobodyHolds(s, cl);
    } else if !ContextHolds(s, cl) {
      var t :| t in HoldersOf(s, cl);
    }
  }

  lemma RunStep(s: State, e: Event, rest: seq<Event>, r: State)
    requires Enabled(s, e) && Safe(s, e) && Next(s, e) == r && AllSafe(r, rest)
    ensures AllSafe(s, [e] + rest) && After(s, [e] + rest) == After(r, rest)
  {
    assert ([e] + rest)[0] == e && ([e] + rest)[1..] == rest;
  }

  lemma {:induction false} RunConcat(s: State, a: seq<Event>, b: seq<Event>)
    requires AllSafe(s, a) && AllSafe(After(s, a), b)
    ensures AllSafe(s, a + b) && After(s, a + b) == After(After(s, a), b)
    decreases |a|
  {
    hide Enabled, Safe, Next;
    if a == [] {
      assert a + b == b;
    } else {
      RunConcat(Next(s, a[0]), a[1..], b);
      assert (a + b)[0] == a[0] && (a + b)[1..] == a[1..] + b;
    }
  }

  const ATTACH_AND_FLAG := [Attach(0, 0, {5}), StartDetach(0), SetDetached(0)]
  const DROP_ALL := [DropInitial(0), FilterDeleted(5), LeaveLast(0)]
  const WAIT_AND_FREE := [StartWait(0), FinishWait(0), FreeClient(0)]
  const AFTER_FLAG := State(map[0 := Client(Flagged, 0, 1)], map[0 := FilterContext(0, 2, true)], map[], map[5 := 0], map[], map[])
  const AFTER_LAST_LEAVE := State(map[0 := Client(CleanedUp, 0, 0)], map[], map[0 := Dying(0, true)], map[], map[], map[])

  lemma AttachAndFlag()
    ensures AllSafe(INITIAL, ATTACH_AND_FLAG) && After(INITIAL, ATTACH_AND_FLAG) == AFTER_FLAG
  {
    var s1 := State(map[0 := Client(Attached, 0, 1)], map[0 := FilterContext(0, 2, false)], map[], map[5 := 0], map[], map[]);
    var s2 := s1.(clients := map[0 := Client(DetachStarted, 0, 1)]);
    RunStep(s2, SetDetached(0), [], AFTER_FLAG);
    RunStep(s1, StartDetach(0), [SetDetached(0)], s2);
    assert Next(INITIAL, Attach(0, 0, {5})) == s1;
    RunStep(INITIAL, Attach(0, 0, {5}), [StartDetach(0), SetDetached(0)], s1);
  }

  lemma DropAll()
    ensures AllSafe(AFTER_FLAG, DROP_ALL) && After(AFTER_FLAG, DROP_ALL) == AFTER_LAST_LEAVE
  {
    var s4 := AFTER_FLAG.(clients := map[0 := Client(CleanedUp, 0, 1)], contexts := map[0 := FilterContext(0, 1, true)]);
    var s5 := State(map[0 := Client(CleanedUp, 0, 1)], map[], map[0 := Dying(0, false)], map[], map[], map[]);
    RunStep(s5, LeaveLast(0), [], AFTER_LAST_LEAVE);
    RunStep(s4, FilterDeleted(5), [LeaveLast(0)], s5);
    RunStep(AFTER_FLAG, DropInitial(0), [FilterDeleted(5), LeaveLast(0)], s4);
  }

  lemma WaitAndFree()
    ensures AllSafe(AFTER_LAST_LEAVE, WAIT_AND_FREE)
    ensures After(AFTER_LAST_LEAVE, WAIT_AND_FREE) == AFTER_LAST_LEAVE.(clients := map[])
  {
    var s7 := AFTER_LAST_LEAVE.(clients := map[0 := Client(Waiting, 0, 0)]);
    var s8 := AFTER_LAST_LEAVE.(clients := map[0 := Client(RunDown, 0, 0)]);
    RunStep(s8, FreeClient(0), [], AFTER_LAST_LEAVE.(clients := map[]));
    RunStep(s7, FinishWait(0), [FreeClient(0)], s8);
    RunStep(AFTER_LAST_LEAVE, StartWait(0), [FinishWait(0), FreeClient(0)], s7);
  }

  /** A run in which the client is freed while its filter context is still allocated: the macro leaves before it frees.
      It is safe, because the free touches the context only. */
  lemma ClientFreedBeforeContext()
    ensures var run := ATTACH_AND_FLAG + (DROP_ALL + WAIT_AND_FREE);
            AllSafe(INITIAL, run) && 0 !in After(INITIAL, run).clients && 0 in After(INITIAL, run).dying
  {
    AttachAndFlag();
    DropAll();
    WaitAndFree();
    hide AllSafe, After;
    RunConcat(AFTER_FLAG, DROP_ALL, WAIT_AND_FREE);
    RunConcat(INITIAL, ATTACH_AND_FLAG, DROP_ALL + WAIT_AND_FREE);
  }

  /** The detach is complete: the client is run down or freed. */
  ghost predicate Detached(s: State, cl: ClientId) {
    cl in s.clients ==> s.clients[cl].phase.RunDown?
  }

  lemma DetachedIsQuiet(s: State, cl: ClientId)
    requires Good(s) && Detached(s, cl)
    ensures forall t :: t in s.threads ==> s.threads[t].client != cl
  {
    if cl in s.clients {
      HookLifetimeSafety.NobodyHolds(s, cl);
    } else {
      forall t | t in s.threads ensures s.threads[t].client != cl {
        HookLifetimeSafety.ThreadPointers(s, t);
      }
    }
  }

  ghost predicate Attaches(e: Event, cl: ClientId) {
    e.Attach? && e.client == cl
  }

  lemma StaysDetached(s: State, e: Event, cl: ClientId)
    requires Good(s) && Detached(s, cl) && Enabled(s, e) && Safe(s, e) && !Attaches(e, cl)
    ensures Detached(Next(s, e), cl)
  {
    HookLifetimeParts.ClientsAfter(s, e);
    hide Inv, Owners, Next;
  }

  /** The run invokes the program of client cl. */
  ghost predicate Invokes(s: State, run: seq<Event>, cl: ClientId)
    requires AllSafe(s, run)
    decreases |run|
  {
    && run != []
    && ((run[0].Invoke? && s.threads[run[0].thread].client == cl) || Invokes(Next(s, run[0]), run[1..], cl))
  }

  lemma {:induction false} QuietFrom(s: State, run: seq<Event>, cl: ClientId)
    requires Good(s) && Detached(s, cl) && AllSafe(s, run)
    requires forall e :: e in run ==> !Attaches(e, cl)
    ensures !Invokes(s, run, cl)
    decreases |run|
  {
    if run != [] {
      DetachedIsQuiet(s, cl);
      assert run[0] in run;
      hide Good, Detached, Next, Safe;
      StaysDetached(s, run[0], cl);
      StepIsGood(s, run[0]);
      QuietFrom(Next(s, run[0]), run[1..], cl);
    }
  }

  /** Once the wait of a detach has finished, the program is never invoked again, whatever runs afterwards,
      until the same client is attached anew. */
  lemma NoInvokeAfterDetach(before: seq<Event>, cl: ClientId, after: seq<Event>)
    requires AllSafe(INITIAL, before) && Enabled(After(INITIAL, before), FinishWait(cl))
    requires var s := Next(After(INITIAL, before), FinishWait(cl));
             AllEnabled(s, after) && forall e :: e in after ==> !Attaches(e, cl)
    ensures var s := Next(After(INITIAL, before), FinishWait(cl));
            AllSafe(s, after) && !Invokes(s, after, cl)
  {
    SafeIsEnabled(INITIAL, before);
    RunsAreSafe(before);
    var s := After(INITIAL, before);
    StepIsGood(s, FinishWait(cl));
    RunFrom(Next(s, FinishWait(cl)), after);
    QuietFrom(Next(s, FinishWait(cl)), after, cl);
  }

  lemma {:induction false} SafeIsEnabled(s: State, run: seq<Event>)
    requires AllSafe(s, run)
    ensures AllEnabled(s, run)
    decreases |run|
  {
    hide Next, Enabled, Safe;
    if run != [] {
      SafeIsEnabled(Next(s, run[0]), run[1..]);
    }
  }

  // ---- until then the program is invoked ----

  /** A classify call that nothing interrupts invokes the program exactly when the client is not flagged as detached and
      the wait for it has not begun. */
  lemma ClassifyInvokesExactly(s: State, t: ThreadId, f: FilterId)
    requires Inv(s) && t !in s.threads && f in s.filters
    ensures s.filters[f] in s.contexts && s.contexts[s.filters[f]].client in s.clients
    ensures AllSafe(s, [ArriveClassify(t, f), Check(t), Enter(t), Invoke(t)]) <==>
            var phase := s.clients[s.contexts[s.filters[f]].client].phase;
            !s.contexts[s.filters[f]].detached && !phase.Waiting? && !phase.RunDown?
  {
    AllSafeNext(s, ArriveClassify(t, f), [Check(t), Enter(t), Invoke(t)]);
    hide AllSafe;
    assert [ArriveClassify(t, f), Check(t), Enter(t), Invoke(t)] == [ArriveClassify(t, f)] + [Check(t), Enter(t), Invoke(t)];
    FromArrived(AfterArriveClassify(s, t, f), t);
  }

  lemma FromArrived(s: State, t: ThreadId)
    requires t in s.threads && s.threads[t].at.Arrived?
    requires s.threads[t].context in s.contexts && s.threads[t].client in s.clients
    ensures AllSafe(s, [Check(t), Enter(t), Invoke(t)]) <==>
            var phase := s.clients[s.threads[t].client].phase;
            !s.contexts[s.threads[t].context].detached && !phase.Waiting? && !phase.RunDown?
  {
    AllSafeNext(s, Check(t), [Enter(t), Invoke(t)]);
    AllSafeNext(AfterCheck(s, t), Enter(t), [Invoke(t)]);
    hide AllSafe;
    assert [Check(t), Enter(t), Invoke(t)] == [Check(t)] + [Enter(t), Invoke(t)];
    assert [Enter(t), Invoke(t)] == [Enter(t)] + [Invoke(t)];
    if !s.contexts[s.threads[t].context].detached {
      FromChecked(AfterCheck(s, t), t);
    }
  }

  lemma FromChecked(s: State, t: ThreadId)
    requires t in s.threads && s.threads[t].at.Checked? && s.threads[t].client in s.clients
    ensures AllSafe(s, [Enter(t), Invoke(t)]) <==>
            var phase := s.clients[s.threads[t].client].phase; !phase.Waiting? && !phase.RunDown?
  {
    AllSafeNext(s, Enter(t), [Invoke(t)]);
    AllSafeNext(AfterEnter(s, t), Invoke(t), []);
    AllSafeNone(AfterEnter(s, t));
    hide AllSafe;
    assert [Enter(t), Invoke(t)] == [Enter(t)] + [Invoke(t)] && [Invoke(t)] == [Invoke(t)] + [];
  }

  lemma AllSafeNone(s: State)
    ensures AllSafe(s, [])
  {
  }

  lemma AllSafeNext(s: State, e: Event, run: seq<Event>)
    ensures AllSafe(s, [e] + run) <==> Enabled(s, e) && Safe(s, e) && AllSafe(Next(s, e), run)
  {
    assert ([e] + run)[0] == e && ([e] + run)[1..] == run;
    hide Enabled, Safe, Next;
  }

  // ---- what beginning to wait achieves ----

  /** A callback acquires rundown protection exactly when the wait has not begun. */
  lemma EntersExactly(s: State, t: ThreadId)
    requires Enabled(s, Enter(t)) && Safe(s, Enter(t))
    ensures var cl := s.threads[t].client;
            t in HoldersOf(Next(s, Enter(t)), cl) <==> !s.clients[cl].phase.Waiting? && !s.clients[cl].phase.RunDown?
  {
    HookLifetimeParts.ThreadsAfter(s, Enter(t));
    hide Next;
  }

  /** The wait of the detach has begun, or is over. */
  ghost predicate WaitBegun(s: State, cl: ClientId) {
    cl in s.clients ==> s.clients[cl].phase.Waiting? || s.clients[cl].phase.RunDown?
  }

  lemma WaitStaysBegun(s: State, e: Event, cl: ClientId)
    requires Enabled(s, e) && Safe(s, e) && WaitBegun(s, cl) && !Attaches(e, cl)
    ensures WaitBegun(Next(s, e), cl)
  {
    HookLifetimeParts.ClientsAfter(s, e);
    hide Next;
  }

  /** From then on no callback acquires rundown protection. */
  lemma NoneEnters(s: State, e: Event, cl: ClientId)
    requires Enabled(s, e) && Safe(s, e) && WaitBegun(s, cl)
    ensures HoldersOf(Next(s, e), cl) <= HoldersOf(s, cl)
  {
    HookLifetimeParts.ThreadsAfter(s, e);
    hide Next;
    forall t | t in HoldersOf(Next(s, e), cl) ensures t in HoldersOf(s, cl) {
    }
  }

  /** Every invocation of the program of client cl in the run is by one of the given callbacks. */
  ghost predicate InvokedForBy(s: State, run: seq<Event>, cl: ClientId, callbacks: set<ThreadId>)
    requires AllSafe(s, run)
    decreases |run|
  {
    run != [] ==>
      && (run[0].Invoke? && s.threads[run[0].thread].client == cl ==> run[0].thread in callbacks)
      && InvokedForBy(Next(s, run[0]), run[1..], cl, callbacks)
  }

  /** Once the wait has begun, the program is invoked only by callbacks that held rundown protection then. */
  lemma {:induction false} WaitStopsEntry(s: State, run: seq<Event>, cl: ClientId, holders: set<ThreadId>)
    requires AllSafe(s, run) && WaitBegun(s, cl) && HoldersOf(s, cl) <= holders
    requires forall e :: e in run ==> !Attaches(e, cl)
    ensures InvokedForBy(s, run, cl, holders)
    decreases |run|
  {
    if run != [] {
      assert run[0] in run;
      assert run[0].Invoke? && s.threads[run[0].thread].client == cl ==> run[0].thread in HoldersOf(s, cl);
      hide Next, Safe, WaitBegun, HoldersOf, Attaches;
      NoneEnters(s, run[0], cl);
      WaitStaysBegun(s, run[0], cl);
      WaitStopsEntry(Next(s, run[0]), run[1..], cl, holders);
    }
  }

  // ---- what setting client_detached achieves ----

  /** Callbacks on the context that have seen the client attached and may still invoke its program. */
  ghost function PastCheck(s: State, c: ContextId): set<ThreadId> {
    set t | t in s.threads && s.threads[t].context == c
            && (s.threads[t].at.Checked? || s.threads[t].at.Entered? || s.threads[t].at.WithFlow?)
  }

  ghost predicate Shut(s: State, c: ContextId) {
    c in s.contexts ==> s.contexts[c].detached
  }

  /** The detach does set the flag. */
  lemma FlagIsSet(s: State, cl: ClientId)
    requires Enabled(s, SetDetached(cl)) && Safe(s, SetDetached(cl))
    ensures s.clients[cl].context in Next(s, SetDetached(cl)).contexts && Shut(Next(s, SetDetached(cl)), s.clients[cl].context)
  {
  }

  lemma ShutStep(s: State, e: Event, c: ContextId)
    requires Enabled(s, e) && Safe(s, e) && Shut(s, c) && !(e.Attach? && e.context == c)
    ensures Shut(Next(s, e), c) && PastCheck(Next(s, e), c) <= PastCheck(s, c)
  {
    StaysShut(s, e, c);
    NoneGetsPast(s, e, c);
    hide *;
  }

  lemma StaysShut(s: State, e: Event, c: ContextId)
    requires Enabled(s, e) && Safe(s, e) && Shut(s, c) && !(e.Attach? && e.context == c)
    ensures Shut(Next(s, e), c)
  {
    HookLifetimeParts.ContextsAfter(s, e);
    hide Next;
  }

  lemma NoneGetsPast(s: State, e: Event, c: ContextId)
    requires Enabled(s, e) && Safe(s, e) && Shut(s, c)
    ensures PastCheck(Next(s, e), c) <= PastCheck(s, c)
  {
    HookLifetimeParts.ThreadsAfter(s, e);
    hide Next;
    forall t | t in PastCheck(Next(s, e), c) ensures t in PastCheck(s, c) {
    }
  }

  /** Every invocation in the run that goes through the context is by one of the given callbacks. */
  ghost predicate InvokedOnlyBy(s: State, run: seq<Event>, c: ContextId, callbacks: set<ThreadId>)
    requires AllSafe(s, run)
    decreases |run|
  {
    run != [] ==>
      && (run[0].Invoke? && s.threads[run[0].thread].context == c ==> run[0].thread in callbacks)
      && InvokedOnlyBy(Next(s, run[0]), run[1..], c, callbacks)
  }

  /** Once the flag is set, no further callback gets past the check: from then on only callbacks that were already past
      it invoke the program. */
  lemma {:induction false} FlagStopsCallbacks(s: State, run: seq<Event>, c: ContextId, callbacks: set<ThreadId>)
    requires AllSafe(s, run) && Shut(s, c) && PastCheck(s, c) <= callbacks
    requires forall e :: e in run ==> !(e.Attach? && e.context == c)
    ensures InvokedOnlyBy(s, run, c, callbacks)
    decreases |run|
  {
    if run != [] {
      assert run[0] in run;
      assert run[0].Invoke? && s.threads[run[0].thread].context == c ==> run[0].thread in PastCheck(s, c);
      hide Next, Safe, Shut, PastCheck;
      ShutStep(s, run[0], c);
      FlagStopsCallbacks(Next(s, run[0]), run[1..], c, callbacks);
    }
  }
}

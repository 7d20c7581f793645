/** A detach never gets stuck: from every reachable state in which the work item waits, finishing the callbacks in
    progress and letting WFP deliver its notifications releases the wait. */
module DetachCompletion {
  import opened HookLifetime
  import opened HookLifetimeRuns
  import HookLifetimeSafety

  /** How far a callback is from its return. */
  function Stage(at: Position): nat {
    match at
    case Arrived => 0
    case Checked => 1
    case Skipped => 2
    case Entered => 2
    case WithFlow(_) => 2
    case Leaving => 3
  }

  ghost function InStage(s: State, cl: ClientId, stage: nat): set<ThreadId> {
    set t | t in s.threads && s.threads[t].client == cl && Stage(s.threads[t].at) == stage
  }

  /** References that wait for a notification from WFP. */
  ghost function Unclaimed(s: State, c: ContextId): set<FlowId> {
    set w | w in s.flows && s.flows[w].context == c && s.flows[w].owner.Associated?
  }

  ghost function Notifications(s: State, c: ContextId): nat {
    |FiltersOf(s, c)| + |Unclaimed(s, c)|
  }

  /** The remaining work of the client decreases lexicographically. */
  ghost predicate Less(r: State, s: State, c: ContextId, cl: ClientId) {
    || Notifications(r, c) < Notifications(s, c)
    || (Notifications(r, c) == Notifications(s, c) && FewerCallbacks(r, s, cl, 0))
    || (Notifications(r, c) == Notifications(s, c) && r.threads == s.threads && NotLeft(r, c) < NotLeft(s, c))
  }

  /** The context is dying and has not left yet. */
  ghost function NotLeft(s: State, c: ContextId): nat {
    if c in s.dying && !s.dying[c].left then 1 else 0
  }

  ghost predicate FewerCallbacks(r: State, s: State, cl: ClientId, stage: nat)
    requires stage <= 3
    decreases 3 - stage
  {
    || |InStage(r, cl, stage)| < |InStage(s, cl, stage)|
    || (stage < 3 && |InStage(r, cl, stage)| == |InStage(s, cl, stage)| && FewerCallbacks(r, s, cl, stage + 1))
  }

  /** One callback of the client moved on or returned. */
  ghost predicate MovedOn(s: State, r: State, t: ThreadId) {
    && t in s.threads && r.threads - {t} == s.threads - {t}
    && (t in r.threads ==> r.threads[t].client == s.threads[t].client && Stage(r.threads[t].at) > Stage(s.threads[t].at))
  }

  lemma MovedOnStages(s: State, r: State, t: ThreadId, stage: nat)
    requires MovedOn(s, r, t)
    ensures var cl := s.threads[t].client;
            && (stage < Stage(s.threads[t].at) ==> InStage(r, cl, stage) == InStage(s, cl, stage))
            && (stage == Stage(s.threads[t].at) ==> |InStage(r, cl, stage)| < |InStage(s, cl, stage)|)
  {
    var before, after := InStage(s, s.threads[t].client, stage), InStage(r, s.threads[t].client, stage);
    forall u | u != t ensures u in before <==> u in after {
      assert u in s.threads <==> u in s.threads - {t};
      assert u in r.threads <==> u in r.threads - {t};
      assert u in s.threads ==> (s.threads - {t})[u] == s.threads[u];
      assert u in r.threads ==> (r.threads - {t})[u] == r.threads[u];
    }
    if stage == Stage(s.threads[t].at) {
      assert t in before && t !in after;
      assert after == before - {t};
    } else if stage < Stage(s.threads[t].at) {
      assert t !in before && t !in after;
    }
  }

  lemma {:induction false} MovedOnFewer(s: State, r: State, t: ThreadId, stage: nat)
    requires MovedOn(s, r, t) && stage <= Stage(s.threads[t].at)
    ensures FewerCallbacks(r, s, s.threads[t].client, stage)
    decreases 3 - stage
  {
    hide InStage;
    MovedOnStages(s, r, t, stage);
    if stage < Stage(s.threads[t].at) {
      MovedOnFewer(s, r, t, stage + 1);
    }
  }

  /** The step with which a callback moves on. */
  function NextStep(th: Thread, t: ThreadId): Event {
    match th.at
    case Arrived => Check(t)
    case Checked => Enter(t)
    case Skipped => DeleteFlow(t)
    case Entered => if th.Classify? then Leave(t) else DeleteFlow(t)
    case WithFlow(_) => DropFlow(t)
    case Leaving => Leave(t)
  }

  lemma NextStepEnabled(s: State, t: ThreadId)
    requires Threads(s) && t in s.threads
    ensures Enabled(s, NextStep(s.threads[t], t))
  {
  }

  lemma Dropped(s: State, r: State, t: ThreadId)
    requires t in s.threads && r.threads == s.threads - {t}
    ensures MovedOn(s, r, t)
  {
  }

  lemma Advanced(s: State, r: State, t: ThreadId, at: Position)
    requires t in s.threads && r.threads == s.threads[t := s.threads[t].(at := at)]
    requires Stage(at) > Stage(s.threads[t].at)
    ensures MovedOn(s, r, t)
  {
  }

  lemma FlowDeleted(s: State, t: ThreadId)
    requires Enabled(s, DeleteFlow(t)) && CanDereference(s, s.threads[t].context)
    ensures MovedOn(s, AfterDeleteFlow(s, t), t)
  {
  }

  lemma EarlyCallbackMoves(s: State, t: ThreadId)
    requires t in s.threads && Stage(s.threads[t].at) < 2 && s.threads[t].context in s.contexts
    requires s.threads[t].client in s.clients && s.clients[s.threads[t].client].phase.Waiting?
    ensures s.threads[t].at.Arrived? ==> MovedOn(s, AfterCheck(s, t), t)
    ensures s.threads[t].at.Checked? ==> MovedOn(s, AfterEnter(s, t), t)
  {
  }

  /** While the work item waits, no callback can enter, and each one in progress moves on. */
  lemma NextStepMoves(s: State, t: ThreadId)
    requires t in s.threads && s.threads[t].client in s.clients && s.clients[s.threads[t].client].phase.Waiting?
    requires s.threads[t].at.Checked? ==> s.threads[t].context in s.contexts
    requires Enabled(s, NextStep(s.threads[t], t)) && Safe(s, NextStep(s.threads[t], t))
    ensures MovedOn(s, Next(s, NextStep(s.threads[t], t)), t)
  {
    hide MovedOn, GivesUp, AfterCheck, AfterEnter, AfterDeleteFlow;
    match s.threads[t].at
    case Arrived => EarlyCallbackMoves(s, t);
    case Checked => EarlyCallbackMoves(s, t);
    case Skipped => FlowDeleted(s, t);
    case Entered => if s.threads[t].Classify? { Dropped(s, AfterLeave(s, t), t); } else { FlowDeleted(s, t); }
    case WithFlow(_) => Advanced(s, AfterDropFlow(s, t), t, Leaving);
    case Leaving => Dropped(s, AfterLeave(s, t), t);
  }

  lemma CallbackMovesOn(s: State, t: ThreadId)
    requires Good(s) && t in s.threads
    requires s.threads[t].client in s.clients && s.clients[s.threads[t].client].phase.Waiting?
    ensures var e := NextStep(s.threads[t], t);
            Enabled(s, e) && Safe(s, e) && MovedOn(s, Next(s, e), t)
  {
    hide Enabled, Safe, Next, NextStep, MovedOn, Threads, Pointers, ReferenceCounts, RundownCounts, Phases, Owners;
    NextStepEnabled(s, t);
    StepIsGood(s, NextStep(s.threads[t], t));
    HookLifetimeSafety.ThreadPointers(s, t);
    NextStepMoves(s, t);
  }

  /** The client still waits, with the same filter context. */
  ghost predicate StillWaiting(s: State, cl: ClientId, c: ContextId) {
    cl in s.clients && s.clients[cl].phase.Waiting? && s.clients[cl].context == c
  }

  /** Steps that finish what is in progress: nothing new is classified, attached or made. */
  predicate Finishing(e: Event) {
    e.Check? || e.Enter? || e.DropFlow? || e.DeleteFlow? || e.Leave? || e.FilterDeleted? || e.ArriveFlowDelete?
    || e.LeaveLast?
  }

  lemma FinishingKeepsWaiting(s: State, e: Event, cl: ClientId, c: ContextId)
    requires Enabled(s, e) && Safe(s, e) && Finishing(e) && StillWaiting(s, cl, c)
    ensures StillWaiting(Next(s, e), cl, c)
  {
  }

  lemma SameNotifications(s: State, r: State, w: FlowId, c: ContextId)
    requires r.filters == s.filters && r.flows == s.flows - {w}
    requires w in s.flows ==> !s.flows[w].owner.Associated?
    ensures Notifications(r, c) == Notifications(s, c)
  {
    assert FiltersOf(r, c) == FiltersOf(s, c);
    assert Unclaimed(r, c) == Unclaimed(s, c);
  }

  lemma NextStepNotifications(s: State, t: ThreadId, c: ContextId)
    requires Threads(s) && t in s.threads
    requires Enabled(s, NextStep(s.threads[t], t)) && Safe(s, NextStep(s.threads[t], t))
    ensures Notifications(Next(s, NextStep(s.threads[t], t)), c) == Notifications(s, c)
  {
    assert ThreadOk(s, t, s.threads[t]);
    var e := NextStep(s.threads[t], t);
    hide Threads, ThreadOk, Notifications;
    if e.DropFlow? {
      SameNotifications(s, AfterDropFlow(s, t), s.threads[t].at.flow, c);
    } else if e.DeleteFlow? {
      SameNotifications(s, AfterDeleteFlow(s, t), s.threads[t].flow, c);
    } else {
      SameGraphNotifications(s, Next(s, e), c);
    }
  }

  lemma SameGraphNotifications(s: State, r: State, c: ContextId)
    requires r.filters == s.filters && r.flows == s.flows
    ensures Notifications(r, c) == Notifications(s, c)
  {
  }

  /** A filter of the context can be deleted, and then one notification less is due. */
  lemma FilterCanGo(s: State, f: FilterId)
    requires Good(s) && f in s.filters
    requires s.filters[f] in s.contexts
    requires forall t :: t in s.threads ==> s.threads[t].client != s.contexts[s.filters[f]].client
    ensures Enabled(s, FilterDeleted(f)) && Safe(s, FilterDeleted(f))
    ensures Notifications(Next(s, FilterDeleted(f)), s.filters[f]) < Notifications(s, s.filters[f])
  {
    forall t | t in s.threads && s.threads[t].Classify? ensures s.threads[t].filter != f {
      assert ThreadOk(s, t, s.threads[t]);
    }
    StepIsGood(s, FilterDeleted(f));
    FilterDeletedNotifications(s, f);
  }

  lemma FilterDeletedNotifications(s: State, f: FilterId)
    requires f in s.filters && CanDereference(s, s.filters[f])
    ensures Notifications(AfterFilterDeleted(s, f), s.filters[f]) < Notifications(s, s.filters[f])
  {
    var r, c := AfterFilterDeleted(s, f), s.filters[f];
    assert r.filters == s.filters - {f} && r.flows == s.flows;
    assert FiltersOf(r, c) == FiltersOf(s, c) - {f};
    assert f in FiltersOf(s, c);
    assert Unclaimed(r, c) == Unclaimed(s, c);
  }

  lemma ArriveNotifications(s: State, t: ThreadId, w: FlowId)
    requires w in s.flows && s.flows[w].owner.Associated? && s.flows[w].context in s.contexts
    ensures Notifications(AfterArriveFlowDelete(s, t, w), s.flows[w].context) < Notifications(s, s.flows[w].context)
  {
    var r, c := AfterArriveFlowDelete(s, t, w), s.flows[w].context;
    assert FiltersOf(r, c) == FiltersOf(s, c);
    var before, after := Unclaimed(s, c), Unclaimed(r, c);
    assert w in before && w !in after;
    assert forall v :: v != w ==> (v in after <==> v in before);
    assert after == before - {w};
  }

  lemma {:induction false} FreshAbove(ids: set<ThreadId>) returns (t: ThreadId)
    ensures forall u :: u in ids ==> u < t
    decreases |ids|
  {
    if ids == {} {
      t := 0;
    } else {
      var id :| id in ids;
      var above := FreshAbove(ids - {id});
      t := above + id + 1;
      forall u | u in ids ensures u < t {
        assert u == id || u in ids - {id};
      }
    }
  }

  /** A flow that WFP does not hold is held by a callback of the same client. */
  lemma OwnerInProgress(s: State, w: FlowId)
    requires Good(s) && w in s.flows
    ensures s.flows[w].context in s.contexts
    ensures s.flows[w].owner.Associated?
            || exists t :: t in s.threads && s.threads[t].client == s.contexts[s.flows[w].context].client
  {
  }

  /** With no callback in progress, the context is alive and a filter or an associated flow holds it, or it is dying
      and has not left. */
  lemma SomethingHolds(s: State, cl: ClientId, c: ContextId)
    requires Good(s) && StillWaiting(s, cl, c) && s.clients[cl].rundown > 0
    requires forall t :: t in s.threads ==> s.threads[t].client != cl
    ensures Enabled(s, LeaveLast(c)) || (c in s.contexts && s.contexts[c].client == cl)
    ensures Enabled(s, LeaveLast(c)) || FiltersOf(s, c) != {} || Unclaimed(s, c) != {}
  {
    assert HoldersOf(s, cl) == {};
    assert ContextHolds(s, cl);
    if ContextAlive(s, cl) && FiltersOf(s, c) == {} {
      assert FlowsOf(s, c) != {};
      var w :| w in FlowsOf(s, c);
      OwnerInProgress(s, w);
      assert w in Unclaimed(s, c);
    }
  }

  /** While the wait is not released, some finishing step is enabled, and the remaining work shrinks. */
  lemma Progress(s: State, cl: ClientId, c: ContextId) returns (e: Event)
    requires Good(s) && StillWaiting(s, cl, c) && s.clients[cl].rundown > 0
    ensures Enabled(s, e) && Safe(s, e) && Finishing(e) && Less(Next(s, e), s, c, cl)
  {
    hide Enabled, Safe, Next, NextStep, MovedOn, Threads, Pointers, ReferenceCounts, RundownCounts, Phases, Owners;
    if t :| t in s.threads && s.threads[t].client == cl {
      e := NextStep(s.threads[t], t);
      CallbackMovesOn(s, t);
      NextStepNotifications(s, t, c);
      MovedOnFewer(s, Next(s, e), t, 0);
      assert Finishing(e) by { NextStepFinishes(s.threads[t], t); }
    } else {
      e := NotificationDue(s, cl, c);
    }
  }

  lemma NextStepFinishes(th: Thread, t: ThreadId)
    ensures Finishing(NextStep(th, t))
  {
  }

  lemma NotificationDue(s: State, cl: ClientId, c: ContextId) returns (e: Event)
    requires Good(s) && StillWaiting(s, cl, c) && s.clients[cl].rundown > 0
    requires forall t :: t in s.threads ==> s.threads[t].client != cl
    ensures Enabled(s, e) && Safe(s, e) && Finishing(e) && Less(Next(s, e), s, c, cl)
  {
    hide Good, Safe, Next, FewerCallbacks, Notifications, NotLeft;
    SomethingHolds(s, cl, c);
    if Enabled(s, LeaveLast(c)) {
      e := LeaveLast(c);
      LeaveLastIsProgress(s, cl, c);
    } else if f :| f in FiltersOf(s, c) {
      e := FilterDeleted(f);
      FilterCanGo(s, f);
    } else {
      var w :| w in Unclaimed(s, c);
      var t := FreshAbove(s.threads.Keys);
      e := ArriveFlowDelete(t, w);
      FlowCanGo(s, t, w);
    }
  }

  lemma LeaveLastIsProgress(s: State, cl: ClientId, c: ContextId)
    requires Good(s) && Enabled(s, LeaveLast(c))
    ensures Safe(s, LeaveLast(c)) && Less(Next(s, LeaveLast(c)), s, c, cl)
  {
    hide Good, FewerCallbacks, Notifications;
    StepIsGood(s, LeaveLast(c));
    SameGraphNotifications(s, Next(s, LeaveLast(c)), c);
  }

  lemma FlowCanGo(s: State, t: ThreadId, w: FlowId)
    requires Good(s) && Enabled(s, ArriveFlowDelete(t, w))
    ensures Safe(s, ArriveFlowDelete(t, w))
    ensures Notifications(Next(s, ArriveFlowDelete(t, w)), s.flows[w].context) < Notifications(s, s.flows[w].context)
  {
    hide Good, Notifications;
    StepIsGood(s, ArriveFlowDelete(t, w));
    ArriveNotifications(s, t, w);
  }

  /** From every reachable state in which the work item waits, a run of finishing steps releases the wait. */
  lemma {:induction false} WaitCanFinish(s: State, cl: ClientId, c: ContextId) returns (run: seq<Event>)
    requires Good(s) && StillWaiting(s, cl, c)
    ensures AllSafe(s, run) && Enabled(After(s, run), FinishWait(cl))
    ensures forall e :: e in run ==> Finishing(e)
    decreases Notifications(s, c), |InStage(s, cl, 0)|, |InStage(s, cl, 1)|, |InStage(s, cl, 2)|, |InStage(s, cl, 3)|,
              NotLeft(s, c)
  {
    hide Good, Safe, Next, Finishing, Notifications, NotLeft;
    if s.clients[cl].rundown == 0 {
      run := [];
    } else {
      var e := Progress(s, cl, c);
      var r := Next(s, e);
      StepIsGood(s, e);
      FinishingKeepsWaiting(s, e, cl, c);
      assert FewerCallbacks(r, s, cl, 0) ==> |InStage(r, cl, 0)| < |InStage(s, cl, 0)| || FewerCallbacks(r, s, cl, 1);
      assert FewerCallbacks(r, s, cl, 1) ==> |InStage(r, cl, 1)| < |InStage(s, cl, 1)| || FewerCallbacks(r, s, cl, 2);
      assert FewerCallbacks(r, s, cl, 2) ==> |InStage(r, cl, 2)| < |InStage(s, cl, 2)| || FewerCallbacks(r, s, cl, 3);
      assert r.threads == s.threads ==> forall i: nat :: InStage(r, cl, i) == InStage(s, cl, i);
      hide InStage;
      var rest := WaitCanFinish(r, cl, c);
      run := [e] + rest;
      assert run[0] == e && run[1..] == rest;
    }
  }
}

/** The drain of a detach over whole runs, in any interleaving: it ends, and it forgets no flow context; and what a
    flow-delete call has done before it invokes the program. */
module FlowListDrains {
  import opened Wrappers
  import opened HookLifetime
  import opened FlowLists
  import opened FlowListSafety
  import opened FlowListWindows

  lemma {:induction false} SteadyRun(s: ListState, run: seq<ListEvent>)
    requires Steady(s) && CoreSafe(s, run)
    ensures Steady(StateAfter(s, run))
    decreases |run|
  {
    hide Steady, ListNext, ListEnabled, Safe;
    if run != [] {
      SteadyStep(s, run[0]);
      SteadyRun(ListNext(s, run[0]), run[1..]);
    }
  }

  predicate IsOfDrain(e: ListEvent, cl: ClientId) {
    OfDrain(e) && e.client == cl
  }

  // ---- a drain ends ----

  /** The steps that a drain can still take: four for each flow context on its list, and the last one. */
  function DrainWork(d: Drain): nat {
    match d
    case Drained => 0
    case Draining(local, Idle) => 4 * |local| + 1
    case Draining(local, Tested) => if local == [] then 2 else 4 * |local|
    case Draining(local, Read(_, _)) => if Intact(d) then 4 * |local| - 1 else 4 * |local| + 3
    case Draining(local, Holding(_)) => 4 * |local| + 2
  }

  lemma {:induction false} WithoutShorter(list: seq<FlowId>, w: FlowId)
    ensures |Without(list, w)| <= |list|
    ensures |Without(list, w)| == |list| ==> Without(list, w) == list
  {
    if list != [] {
      WithoutShorter(list[1..], w);
    }
  }

  lemma UnlinkWork(d: Drain, w: FlowId)
    ensures DrainWork(WithoutInDrain(d, w)) <= DrainWork(d)
  {
    if d.Draining? {
      WithoutShorter(d.local, w);
    }
  }

  lemma OwnDrainWork(s: ListState, e: ListEvent, cl: ClientId)
    requires ListEnabled(s, e) && IsOfDrain(e, cl) && cl in s.drains
    ensures cl in ListNext(s, e).drains && DrainWork(ListNext(s, e).drains[cl]) < DrainWork(s.drains[cl])
  {
  }

  /** Only the client's own drain and unlinking change a drain. */
  lemma OtherDrain(s: ListState, e: ListEvent, cl: ClientId)
    requires Steady(s) && ListEnabled(s, e) && (e.Step? ==> Safe(s.core, e.event)) && !IsOfDrain(e, cl) && InDrain(s, cl)
    ensures cl in ListNext(s, e).drains
    ensures ListNext(s, e).drains[cl] ==
            if e.Unlink? then WithoutInDrain(s.drains[cl], s.core.threads[e.thread].flow) else s.drains[cl]
  {
    hide Next, Safe, ListGood, Publishers, ListContexts, LocalContexts;
  }

  ghost function DrainSteps(run: seq<ListEvent>, cl: ClientId): nat {
    if run == [] then 0 else (if IsOfDrain(run[0], cl) then 1 else 0) + DrainSteps(run[1..], cl)
  }

  /** The run goes on until the drain is over, and no further. */
  ghost predicate WhileDraining(s: ListState, run: seq<ListEvent>, cl: ClientId)
    requires CoreSafe(s, run)
    decreases |run|
  {
    run != [] ==> InDrain(s, cl) && WhileDraining(ListNext(s, run[0]), run[1..], cl)
  }

  /** However other calls interleave with it and unlink flow contexts from its list, a drain ends after at most four
      steps for each flow context on the list and one more. */
  lemma {:induction false} DrainBounded(s: ListState, run: seq<ListEvent>, cl: ClientId)
    requires Steady(s) && CoreSafe(s, run) && cl in s.drains && WhileDraining(s, run, cl)
    ensures DrainSteps(run, cl) <= DrainWork(s.drains[cl])
    decreases |run|
  {
    if run != [] {
      var e := run[0];
      hide Steady, ListNext, ListEnabled, Safe, DrainWork;
      SteadyStep(s, e);
      if IsOfDrain(e, cl) {
        OwnDrainWork(s, e, cl);
      } else {
        OtherDrain(s, e, cl);
        if e.Unlink? {
          UnlinkWork(s.drains[cl], s.core.threads[e.thread].flow);
        }
      }
      DrainBounded(ListNext(s, e), run[1..], cl);
    }
  }

  /** And until it ends, its next step can be taken. */
  lemma DrainGoesOn(s: ListState, cl: ClientId) returns (e: ListEvent)
    requires InDrain(s, cl)
    ensures IsOfDrain(e, cl) && ListEnabled(s, e)
  {
    match s.drains[cl].cursor
    case Idle => e := if s.drains[cl].local == [] then FinishDrain(cl) else TestList(cl);
    case Tested => e := ReadHead(cl);
    case Read(_, _) => e := Relink(cl);
    case Holding(_) => e := RemoveFlow(cl);
  }

  // ---- and forgets no flow context ----

  /** The drain still has the flow context before it. */
  predicate Pending(d: Drain, w: FlowId) {
    d.Draining? && (w in d.local || d.cursor == Holding(w))
  }

  /** At some point of the run, the drain has WFP delete the flow, or a flow-delete call has unlinked it. */
  ghost predicate Handled(s: ListState, run: seq<ListEvent>, cl: ClientId, w: FlowId)
    requires CoreSafe(s, run)
    decreases |run|
  {
    && run != []
    && (|| (run[0] == RemoveFlow(cl) && s.drains[cl].cursor.flow == w)
        || (run[0].Unlink? && s.core.threads[run[0].thread].flow == w)
        || Handled(ListNext(s, run[0]), run[1..], cl, w))
  }

  lemma PendingStays(s: ListState, e: ListEvent, cl: ClientId, w: FlowId)
    requires Steady(s) && ListEnabled(s, e) && (e.Step? ==> Safe(s.core, e.event))
    requires cl in s.drains && Pending(s.drains[cl], w)
    ensures || (e == RemoveFlow(cl) && s.drains[cl].cursor.flow == w)
            || (e.Unlink? && s.core.threads[e.thread].flow == w)
            || (cl in ListNext(s, e).drains && Pending(ListNext(s, e).drains[cl], w))
  {
    if IsOfDrain(e, cl) {
      hide Steady, Safe;
    } else {
      OtherDrain(s, e, cl);
      hide Steady, ListNext, Safe;
      if e.Unlink? {
        WithoutMembers(s.drains[cl].local, s.core.threads[e.thread].flow, w);
      }
    }
  }

  /** When a drain is over, WFP has been asked to delete every flow context that it took, except those that a
      flow-delete call unlinked first, whatever the interleaving. */
  lemma {:induction false} NoFlowForgotten(s: ListState, run: seq<ListEvent>, cl: ClientId, w: FlowId)
    requires Steady(s) && CoreSafe(s, run) && cl in s.drains && Pending(s.drains[cl], w)
    requires !InDrain(StateAfter(s, run), cl)
    ensures Handled(s, run, cl, w)
    decreases |run|
  {
    if run != [] {
      hide Steady, ListNext, ListEnabled, Safe, Pending;
      SteadyStep(s, run[0]);
      PendingStays(s, run[0], cl, w);
      if cl in ListNext(s, run[0]).drains && Pending(ListNext(s, run[0]).drains[cl], w) {
        NoFlowForgotten(ListNext(s, run[0]), run[1..], cl, w);
      }
    }
  }

  /** Both, from the beginning: a detach takes the list of its context; after at most four steps for each flow context
      on it and one more the drain is over, and each of them has been handled. */
  lemma DrainFromTake(before: seq<ListEvent>, cl: ClientId, run: seq<ListEvent>, w: FlowId)
    requires CoreSafe(START, before) && ListEnabled(StateAfter(START, before), TakeList(cl))
    requires CoreSafe(ListNext(StateAfter(START, before), TakeList(cl)), run)
    requires WhileDraining(ListNext(StateAfter(START, before), TakeList(cl)), run, cl)
    ensures var s := StateAfter(START, before);
            var r, list := ListNext(s, TakeList(cl)), s.lists[s.core.clients[cl].context];
            && DrainSteps(run, cl) <= 4 * |list| + 1
            && (w in list && !InDrain(StateAfter(r, run), cl) ==> Handled(r, run, cl, w))
  {
    var s := StateAfter(START, before);
    var r := ListNext(s, TakeList(cl));
    StartIsTidy();
    SteadyRun(START, before);
    SteadyStep(s, TakeList(cl));
    assert r.drains[cl] == Draining(s.lists[s.core.clients[cl].context], Idle);
    hide Steady, ListNext, CoreSafe, StateAfter, WhileDraining;
    DrainBounded(r, run, cl);
    if w in s.lists[s.core.clients[cl].context] && !InDrain(StateAfter(r, run), cl) {
      NoFlowForgotten(r, run, cl, w);
    }
  }

  // ---- a flow-delete call invokes the program after it has unlinked its flow context ----

  /** A classify call is not held back by the lists; a flow-delete call can invoke the program once it has unlinked its
      flow context, and not before. */
  lemma InvokesExactly(s: ListState, t: ThreadId)
    requires Enabled(s.core, Invoke(t))
    ensures s.core.threads[t].Classify? ==> ListEnabled(s, Step(Invoke(t)))
    ensures s.core.threads[t].FlowDelete? && s.core.threads[t].at.Entered? && t !in s.unlinked ==>
      !ListEnabled(s, Step(Invoke(t))) && ListEnabled(s, Unlink(t)) && ListEnabled(ListNext(s, Unlink(t)), Step(Invoke(t)))
  {
  }

  ghost predicate NoEarlyUnlink(s: ListState, run: seq<ListEvent>)
    requires CoreSafe(s, run)
    decreases |run|
  {
    run != [] ==> !EarlyUnlink(s, run[0]) && NoEarlyUnlink(ListNext(s, run[0]), run[1..])
  }

  lemma {:induction false} UnlinkedGoneRun(s: ListState, run: seq<ListEvent>)
    requires Steady(s) && UnlinkedGone(s) && CoreSafe(s, run) && NoEarlyUnlink(s, run)
    ensures UnlinkedGone(StateAfter(s, run))
    decreases |run|
  {
    hide Steady, UnlinkedGone, ListNext, ListEnabled, Safe, EarlyUnlink;
    if run != [] {
      SteadyStep(s, run[0]);
      UnlinkedGoneStep(s, run[0]);
      UnlinkedGoneRun(ListNext(s, run[0]), run[1..]);
    }
  }

  /** In every run that unlinks no flow context before its publication: while a flow-delete call invokes the program,
      and when it frees its flow context, that is on no list, on no drain's list and not about to be published. */
  lemma UnlinkedWhenInvoked(run: seq<ListEvent>, t: ThreadId)
    requires CoreSafe(START, run) && NoEarlyUnlink(START, run)
    requires t in StateAfter(START, run).core.threads && StateAfter(START, run).core.threads[t].FlowDelete?
    requires StateAfter(START, run).core.threads[t].at.Entered?
    ensures var s := StateAfter(START, run);
            ListEnabled(s, Step(Invoke(t))) || ListEnabled(s, Step(DeleteFlow(t))) ==>
              var w := s.core.threads[t].flow;
              !InLists(s, w) && !InLocals(s, w) && w !in s.unpublished.Values
  {
    StartIsTidy();
    UnlinkedGoneRun(START, run);
    hide StateAfter, CoreSafe, InLists, InLocals;
  }
}

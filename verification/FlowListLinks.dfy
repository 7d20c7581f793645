/** When all accesses to flow contexts are safe, those to the neighbours on a list included. A flow-delete call that finds
    the client detached frees its flow context and leaves it on the list; who links or unlinks next to it afterwards
    writes to freed memory. */
module FlowListLinks {
  import opened HookLifetime
  import opened HookLifetimeRuns
  import opened FlowLists
  import opened FlowListSafety
  import opened FlowListWindows

  /** The flow contexts that flow-delete calls have freed without taking them off a list. */
  ghost function FreedInPlace(s: ListState, e: ListEvent, freed: set<FlowId>): set<FlowId>
    requires ListEnabled(s, e)
  {
    if e.Step? && e.event.DeleteFlow? && s.core.threads[e.event.thread].at.Skipped?
    then freed + {s.core.threads[e.event.thread].flow} else freed
  }

  ghost predicate Adjacent(list: seq<FlowId>, w: FlowId, v: FlowId) {
    exists i :: 0 <= i < |list| && list[i] == w && ((i > 0 && list[i - 1] == v) || (i + 1 < |list| && list[i + 1] == v))
  }

  /** A classify call inserts its flow after such a flow, or a flow-delete call takes its flow off next to one. */
  ghost predicate MeetsFreed(s: ListState, e: ListEvent, freed: set<FlowId>)
    requires ListEnabled(s, e)
  {
    match e
    case Publish(t) =>
      var list := s.lists[s.core.threads[t].context];
      list != [] && list[|list| - 1] in freed
    case Unlink(t) => exists c, v :: c in s.lists && v in freed && Adjacent(s.lists[c], s.core.threads[t].flow, v)
    case _ => false
  }

  /** These are dead, and no other dead flow is on a list. */
  ghost predicate Known(s: ListState, freed: set<FlowId>) {
    && (forall v :: v in freed ==> v < s.born && !Live(s, v))
    && (forall c, v :: c in s.lists && v in s.lists[c] && !Live(s, v) ==> v in freed)
  }

  lemma NeighboursExactly(s: ListState, list: seq<FlowId>, w: FlowId, freed: set<FlowId>)
    requires forall v :: v in list ==> (Live(s, v) <==> v !in freed)
    ensures NeighboursLive(s, list, w) <==> forall v :: v in freed ==> !Adjacent(list, w, v)
  {
    if !NeighboursLive(s, list, w) {
      var i :| 0 <= i < |list| && list[i] == w
               && !((i > 0 ==> Live(s, list[i - 1])) && (i + 1 < |list| ==> Live(s, list[i + 1])));
      var v := if i > 0 && !Live(s, list[i - 1]) then list[i - 1] else list[i + 1];
      assert v in freed && Adjacent(list, w, v);
    }
  }

  lemma UnlinkLinks(s: ListState, t: ThreadId, freed: set<FlowId>)
    requires LocalsLive(s) && Known(s, freed) && ListEnabled(s, Unlink(t))
    ensures LinksLive(s, Unlink(t)) <==> !MeetsFreed(s, Unlink(t), freed)
  {
    var w := s.core.threads[t].flow;
    forall c | c in s.lists
      ensures NeighboursLive(s, s.lists[c], w) <==> forall v :: v in freed ==> !Adjacent(s.lists[c], w, v)
    {
      NeighboursExactly(s, s.lists[c], w, freed);
    }
    forall cl | InDrain(s, cl) ensures NeighboursLive(s, s.drains[cl].local, w) {
      forall v | v in s.drains[cl].local ensures Live(s, v) {
        assert InLocals(s, v);
      }
      AllNeighboursLive(s, s.drains[cl].local, w);
    }
  }

  lemma LinksMeet(s: ListState, e: ListEvent, freed: set<FlowId>)
    requires Steady(s) && Tidy(s) && Known(s, freed) && ListEnabled(s, e)
    ensures LinksLive(s, e) <==> !MeetsFreed(s, e, freed)
  {
    hide Steady, WindowsLive, LocalsLive, AllIntact, UnlinkedGone, EarlyListsLive, NeighboursLive, Adjacent;
    match e
    case Unlink(t) => UnlinkLinks(s, t, freed);
    case TakeList(cl) => TakenEndsLive(s, cl);
    case _ =>
  }

  lemma TakenEndsLive(s: ListState, cl: ClientId)
    requires Steady(s) && EarlyListsLive(s) && ListEnabled(s, TakeList(cl))
    ensures LinksLive(s, TakeList(cl))
  {
    hide Steady, EarlyListsLive;
    var list := s.lists[s.core.clients[cl].context];
    if list != [] {
      TakenLive(s, cl, list[0]);
      TakenLive(s, cl, list[|list| - 1]);
    }
  }

  /** A flow on a list dies only by a flow-delete call that goes on without rundown protection. */
  lemma ListedDies(s: ListState, e: Event, v: FlowId)
    requires ListGood(s) && UnlinkedGone(s) && ListEnabled(s, Step(e)) && Safe(s.core, e)
    requires InLists(s, v) && Live(s, v) && v !in Next(s.core, e).flows
    ensures e.DeleteFlow? && s.core.threads[e.thread].at.Skipped? && s.core.threads[e.thread].flow == v
  {
    FlowsAfter(s.core, e);
    hide Next, Good;
    assert InUse(s, v);
    if e.DropFlow? {
      FlowOfMaker(s.core, e.thread);
    }
  }

  lemma StillFreed(s: ListState, e: ListEvent, freed: set<FlowId>, v: FlowId)
    requires ListGood(s) && Known(s, freed) && ListEnabled(s, e) && (e.Step? ==> Safe(s.core, e.event))
    requires v in FreedInPlace(s, e, freed)
    ensures v < ListNext(s, e).born && !Live(ListNext(s, e), v)
  {
    hide Next, Safe, ListNext, Good;
    CoreFlowsAfter(s, e);
    EnabledCore(s, e);
    if v in freed {
      FlowWasLive(s, e, v);
    } else {
      FlowsAfter(s.core, e.event);
      FlowInHand(s.core, e.event.thread);
    }
  }

  lemma ListedKnown(s: ListState, e: ListEvent, freed: set<FlowId>, c: ContextId, v: FlowId)
    requires ListEnabled(s, e) && (e.Step? ==> Safe(s.core, e.event)) && OwnFlowLive(s, e)
    requires Steady(s) && UnlinkedGone(s) && Known(s, freed)
    requires c in ListNext(s, e).lists && v in ListNext(s, e).lists[c] && !Live(ListNext(s, e), v)
    ensures v in FreedInPlace(s, e, freed)
  {
    hide Next, Safe, ListNext, Good, Enabled, UnlinkedGone, Publishers, ListContexts, LocalContexts, Drains;
    CoreFlowsAfter(s, e);
    ListsAfter(s, e, c, v);
    if c in s.lists && v in s.lists[c] && Live(s, v) {
      assert InLists(s, v);
      ListedDies(s, e.event, v);
    }
  }

  lemma KnownStep(s: ListState, e: ListEvent, freed: set<FlowId>)
    requires ListEnabled(s, e) && (e.Step? ==> Safe(s.core, e.event)) && OwnFlowLive(s, e)
    requires Steady(s) && UnlinkedGone(s) && Known(s, freed)
    ensures Known(ListNext(s, e), FreedInPlace(s, e, freed))
  {
    hide ListNext, ListEnabled, Safe, UnlinkedGone, FreedInPlace, Live, ListGood, OwnFlowLive;
    var r := ListNext(s, e);
    forall v | v in FreedInPlace(s, e, freed) ensures v < r.born && !Live(r, v) {
      StillFreed(s, e, freed, v);
    }
    forall c, v | c in r.lists && v in r.lists[c] && !Live(r, v) ensures v in FreedInPlace(s, e, freed) {
      ListedKnown(s, e, freed, c, v);
    }
  }

  // ---- runs ----

  ghost predicate AllLinksLive(s: ListState, run: seq<ListEvent>)
    requires CoreSafe(s, run)
    decreases |run|
  {
    run != [] ==> LinksLive(s, run[0]) && AllLinksLive(ListNext(s, run[0]), run[1..])
  }

  ghost predicate AllSafe(s: ListState, run: seq<ListEvent>)
    requires CoreSafe(s, run)
    decreases |run|
  {
    run != [] ==> ListSafe(s, run[0]) && AllSafe(ListNext(s, run[0]), run[1..])
  }

  /** No step of the run touches a flow that was freed in place, the given ones included. */
  ghost predicate NoneMeetsFreed(s: ListState, run: seq<ListEvent>, freed: set<FlowId>)
    requires CoreSafe(s, run)
    decreases |run|
  {
    run != [] ==>
      !MeetsFreed(s, run[0], freed) && NoneMeetsFreed(ListNext(s, run[0]), run[1..], FreedInPlace(s, run[0], freed))
  }

  lemma {:induction false} LinksExactlyFrom(s: ListState, run: seq<ListEvent>, freed: set<FlowId>)
    requires Steady(s) && Tidy(s) && Known(s, freed) && CoreSafe(s, run) && NoneInTheWindow(s, run)
    ensures AllLinksLive(s, run) <==> NoneMeetsFreed(s, run, freed)
    decreases |run|
  {
    if run != [] {
      var e := run[0];
      hide Steady, WindowsLive, LocalsLive, AllIntact, UnlinkedGone, EarlyListsLive, Known, ListNext, ListEnabled, Safe,
        OwnFlowLive, LinksLive, MeetsFreed, FreedInPlace, InTheWindow;
      SteadyStep(s, e);
      TidyStep(s, e);
      LinksMeet(s, e, freed);
      KnownStep(s, e, freed);
      LinksExactlyFrom(ListNext(s, e), run[1..], FreedInPlace(s, e, freed));
    }
  }

  lemma {:induction false} SafeInParts(s: ListState, run: seq<ListEvent>)
    requires CoreSafe(s, run)
    ensures AllSafe(s, run) <==> AllOwnLive(s, run) && AllLinksLive(s, run)
    decreases |run|
  {
    if run != [] {
      hide ListNext, ListEnabled, Safe, OwnFlowLive, LinksLive;
      SafeInParts(ListNext(s, run[0]), run[1..]);
    }
  }

  /** In every run that comes to rest, all accesses to flow contexts are safe if and only if nothing happens in one of the
      windows, and nobody inserts or takes off a flow next to one that was freed in place. */
  lemma AccessesExactly(run: seq<ListEvent>)
    requires IsRun(START, run)
    ensures CoreSafe(START, run)
    ensures Rest(StateAfter(START, run)) ==>
              (AllSafe(START, run) <==> NoneInTheWindow(START, run) && NoneMeetsFreed(START, run, {}))
  {
    StartIsTidy();
    WindowsExactly(run);
    SafeInParts(START, run);
    hide AllSafe, AllOwnLive, AllLinksLive, NoneMeetsFreed;
    if NoneInTheWindow(START, run) {
      LinksExactlyFrom(START, run, {});
    }
  }
}

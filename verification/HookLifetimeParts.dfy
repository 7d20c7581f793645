/** The effect of each step of the lifetime protocol on one part of the state at a time. */
module HookLifetimeParts {
  import opened HookLifetime

  function Moved(threads: map<ThreadId, Thread>, t: ThreadId, at: Position): map<ThreadId, Thread>
    requires t in threads
  {
    threads[t := threads[t].(at := at)]
  }

  function GivenUp(threads: map<ThreadId, Thread>, t: ThreadId): map<ThreadId, Thread>
    requires t in threads
  {
    if threads[t].Classify? then threads - {t} else Moved(threads, t, Skipped)
  }

  function Dropped(contexts: map<ContextId, FilterContext>, c: ContextId): map<ContextId, FilterContext>
    requires c in contexts && contexts[c].references > 0
  {
    if contexts[c].references == 1 then contexts - {c}
    else contexts[c := contexts[c].(references := contexts[c].references - 1)]
  }

  ghost function ClientsNext(s: State, e: Event): map<ClientId, Client>
    requires Enabled(s, e) && Safe(s, e)
  {
    match e
    case Attach(cl, c, _) => s.clients[cl := Client(Attached, c, 1)]
    case Enter(t) =>
      var cl := s.threads[t].client;
      if s.clients[cl].phase.AllowsEnter() then s.clients[cl := s.clients[cl].(rundown := s.clients[cl].rundown + 1)]
      else s.clients
    case Leave(t) =>
      var cl := s.threads[t].client;
      s.clients[cl := s.clients[cl].(rundown := s.clients[cl].rundown - 1)]
    case LeaveLast(c) =>
      var cl := s.dying[c].client;
      s.clients[cl := s.clients[cl].(rundown := s.clients[cl].rundown - 1)]
    case StartDetach(cl) => s.clients[cl := s.clients[cl].(phase := DetachStarted)]
    case SetDetached(cl) => s.clients[cl := s.clients[cl].(phase := Flagged)]
    case DropInitial(cl) => s.clients[cl := s.clients[cl].(phase := CleanedUp)]
    case StartWait(cl) => s.clients[cl := s.clients[cl].(phase := Waiting)]
    case FinishWait(cl) => s.clients[cl := s.clients[cl].(phase := RunDown)]
    case FreeClient(cl) => s.clients - {cl}
    case _ => s.clients
  }

  ghost function ContextsNext(s: State, e: Event): map<ContextId, FilterContext>
    requires Enabled(s, e) && Safe(s, e)
  {
    match e
    case Attach(cl, c, fs) => s.contexts[c := FilterContext(cl, 1 + |fs|, false)]
    case MakeFlow(t, _) =>
      var c := s.threads[t].context;
      s.contexts[c := s.contexts[c].(references := s.contexts[c].references + 1)]
    case DropFlow(t) => Dropped(s.contexts, s.threads[t].context)
    case DeleteFlow(t) => Dropped(s.contexts, s.threads[t].context)
    case FilterDeleted(f) => Dropped(s.contexts, s.filters[f])
    case SetDetached(cl) =>
      var c := s.clients[cl].context;
      s.contexts[c := s.contexts[c].(detached := true)]
    case DropInitial(cl) => Dropped(s.contexts, s.clients[cl].context)
    case _ => s.contexts
  }

  ghost function FlowsNext(s: State, e: Event): map<FlowId, Flow>
    requires Enabled(s, e) && Safe(s, e)
  {
    match e
    case ArriveFlowDelete(t, w) => s.flows[w := Flow(s.flows[w].context, DeletedBy(t))]
    case MakeFlow(t, w) => s.flows[w := Flow(s.threads[t].context, MadeBy(t))]
    case DropFlow(t) => s.flows - {s.threads[t].at.flow}
    case AssociateFlow(t) => s.flows[s.threads[t].at.flow := Flow(s.threads[t].context, Associated)]
    case DeleteFlow(t) => s.flows - {s.threads[t].flow}
    case _ => s.flows
  }

  ghost function ThreadsNext(s: State, e: Event): map<ThreadId, Thread>
    requires Enabled(s, e) && Safe(s, e)
  {
    match e
    case ArriveClassify(t, f) => s.threads[t := Classify(f, s.filters[f], s.contexts[s.filters[f]].client, Arrived)]
    case ArriveFlowDelete(t, w) =>
      var c := s.flows[w].context;
      s.threads[t := FlowDelete(w, c, s.contexts[c].client, Arrived)]
    case Check(t) =>
      if s.contexts[s.threads[t].context].detached then GivenUp(s.threads, t) else Moved(s.threads, t, Checked)
    case Enter(t) =>
      if s.clients[s.threads[t].client].phase.AllowsEnter() then Moved(s.threads, t, Entered) else GivenUp(s.threads, t)
    case MakeFlow(t, w) => Moved(s.threads, t, WithFlow(w))
    case DropFlow(t) => Moved(s.threads, t, Leaving)
    case AssociateFlow(t) => Moved(s.threads, t, Leaving)
    case DeleteFlow(t) => if s.threads[t].at.Entered? then Moved(s.threads, t, Leaving) else s.threads - {t}
    case Leave(t) => s.threads - {t}
    case _ => s.threads
  }

  // ---- the parts of the functions that steps are made of ----

  lemma MovedParts(m: State, t: ThreadId, at: Position)
    requires t in m.threads
    ensures var r := MovedTo(m, t, at);
            r.clients == m.clients && r.contexts == m.contexts && r.flows == m.flows && r.threads == Moved(m.threads, t, at)
  {
  }

  lemma GivesUpParts(s: State, t: ThreadId)
    requires t in s.threads
    ensures var r := GivesUp(s, t);
            r.clients == s.clients && r.contexts == s.contexts && r.flows == s.flows && r.threads == GivenUp(s.threads, t)
  {
    hide MovedTo;
    MovedParts(s, t, Skipped);
  }

  lemma DereferencedParts(m: State, c: ContextId)
    requires CanDereference(m, c)
    ensures var r := Dereferenced(m, c);
            r.clients == m.clients && r.contexts == Dropped(m.contexts, c) && r.flows == m.flows && r.threads == m.threads
  {
  }

  ghost predicate PartsNext(s: State, e: Event, r: State)
    requires Enabled(s, e) && Safe(s, e)
  {
    r.clients == ClientsNext(s, e) && r.contexts == ContextsNext(s, e) && r.flows == FlowsNext(s, e)
      && r.threads == ThreadsNext(s, e)
  }

  lemma CheckParts(s: State, t: ThreadId)
    requires Enabled(s, Check(t)) && Safe(s, Check(t))
    ensures PartsNext(s, Check(t), AfterCheck(s, t))
  {
    hide MovedTo, GivesUp, Moved, GivenUp;
    GivesUpParts(s, t);
    MovedParts(s, t, Checked);
  }

  lemma EnterParts(s: State, t: ThreadId)
    requires Enabled(s, Enter(t)) && Safe(s, Enter(t))
    ensures PartsNext(s, Enter(t), AfterEnter(s, t))
  {
    hide MovedTo, GivesUp, Moved, GivenUp;
    GivesUpParts(s, t);
    MovedParts(Acquired(s, s.threads[t].client), t, Entered);
  }

  lemma MakeFlowParts(s: State, t: ThreadId, w: FlowId)
    requires Enabled(s, MakeFlow(t, w)) && Safe(s, MakeFlow(t, w))
    ensures PartsNext(s, MakeFlow(t, w), AfterMakeFlow(s, t, w))
  {
    hide MovedTo, Moved;
    var c := s.threads[t].context;
    MovedParts(Referenced(s, c).(flows := s.flows[w := Flow(c, MadeBy(t))]), t, WithFlow(w));
  }

  lemma DropFlowParts(s: State, t: ThreadId)
    requires Enabled(s, DropFlow(t)) && Safe(s, DropFlow(t))
    ensures PartsNext(s, DropFlow(t), AfterDropFlow(s, t))
  {
    hide MovedTo, Moved, Dereferenced, Dropped;
    var m := s.(flows := s.flows - {s.threads[t].at.flow});
    MovedParts(m, t, Leaving);
    DereferencedParts(MovedTo(m, t, Leaving), s.threads[t].context);
  }

  lemma AssociateFlowParts(s: State, t: ThreadId)
    requires Enabled(s, AssociateFlow(t)) && Safe(s, AssociateFlow(t))
    ensures PartsNext(s, AssociateFlow(t), AfterAssociateFlow(s, t))
  {
    hide MovedTo, Moved;
    MovedParts(s.(flows := s.flows[s.threads[t].at.flow := Flow(s.threads[t].context, Associated)]), t, Leaving);
  }

  lemma DeleteFlowParts(s: State, t: ThreadId)
    requires Enabled(s, DeleteFlow(t)) && Safe(s, DeleteFlow(t))
    ensures PartsNext(s, DeleteFlow(t), AfterDeleteFlow(s, t))
  {
    hide MovedTo, Moved, Dereferenced, Dropped;
    MovedParts(s.(flows := s.flows - {s.threads[t].flow}), t, Leaving);
    DereferencedParts(WithoutFlow(s, t), s.threads[t].context);
  }

  lemma FilterDeletedParts(s: State, f: FilterId)
    requires Enabled(s, FilterDeleted(f)) && Safe(s, FilterDeleted(f))
    ensures PartsNext(s, FilterDeleted(f), AfterFilterDeleted(s, f))
  {
    hide Dereferenced, Dropped;
    DereferencedParts(s.(filters := s.filters - {f}), s.filters[f]);
  }

  lemma DropInitialParts(s: State, cl: ClientId)
    requires Enabled(s, DropInitial(cl)) && Safe(s, DropInitial(cl))
    ensures PartsNext(s, DropInitial(cl), AfterDropInitial(s, cl))
  {
    hide Dereferenced, Dropped;
    DereferencedParts(InPhase(s, cl, CleanedUp), s.clients[cl].context);
  }

  lemma OtherParts(s: State, e: Event)
    requires Enabled(s, e) && Safe(s, e)
    requires !e.Check? && !e.Enter? && !e.MakeFlow? && !e.DropFlow? && !e.AssociateFlow? && !e.DeleteFlow?
             && !e.FilterDeleted? && !e.DropInitial?
    ensures PartsNext(s, e, Next(s, e))
  {
  }

  /** Each part of the next state is given by its own function. */
  lemma PartsAfter(s: State, e: Event)
    requires Enabled(s, e) && Safe(s, e)
    ensures PartsNext(s, e, Next(s, e))
  {
    hide PartsNext, AfterCheck, AfterEnter, AfterMakeFlow, AfterDropFlow, AfterAssociateFlow, AfterDeleteFlow,
      AfterFilterDeleted,
      AfterDropInitial;
    match e
    case Check(t) => CheckParts(s, t);
    case Enter(t) => EnterParts(s, t);
    case MakeFlow(t, w) => MakeFlowParts(s, t, w);
    case DropFlow(t) => DropFlowParts(s, t);
    case AssociateFlow(t) => AssociateFlowParts(s, t);
    case DeleteFlow(t) => DeleteFlowParts(s, t);
    case FilterDeleted(f) => FilterDeletedParts(s, f);
    case DropInitial(cl) => DropInitialParts(s, cl);
    case _ => OtherParts(s, e);
  }

  lemma ClientsAfter(s: State, e: Event)
    requires Enabled(s, e) && Safe(s, e)
    ensures Next(s, e).clients == ClientsNext(s, e)
  {
    hide Next, ClientsNext, ContextsNext, FlowsNext, ThreadsNext, Enabled, Safe;
    PartsAfter(s, e);
  }

  lemma ContextsAfter(s: State, e: Event)
    requires Enabled(s, e) && Safe(s, e)
    ensures Next(s, e).contexts == ContextsNext(s, e)
  {
    hide Next, ClientsNext, ContextsNext, FlowsNext, ThreadsNext, Enabled, Safe;
    PartsAfter(s, e);
  }

  lemma FlowsAfter(s: State, e: Event)
    requires Enabled(s, e) && Safe(s, e)
    ensures Next(s, e).flows == FlowsNext(s, e)
  {
    hide Next, ClientsNext, ContextsNext, FlowsNext, ThreadsNext, Enabled, Safe;
    PartsAfter(s, e);
  }

  lemma ThreadsAfter(s: State, e: Event)
    requires Enabled(s, e) && Safe(s, e)
    ensures Next(s, e).threads == ThreadsNext(s, e)
  {
    hide Next, ClientsNext, ContextsNext, FlowsNext, ThreadsNext, Enabled, Safe;
    PartsAfter(s, e);
  }
}

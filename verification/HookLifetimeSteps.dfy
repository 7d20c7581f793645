/** What each step of the lifetime protocol does to clients, contexts and callbacks, seen from the outside. */
module HookLifetimeSteps {
  import opened HookLifetime
  import opened HookLifetimeRuns
  import HookLifetimeParts
  import HookLifetimeSafety

  /** The detach has set client_detached, or is past that. */
  predicate Late(phase: Phase) {
    !phase.Attached? && !phase.DetachStarted?
  }

  ghost predicate FlaggedLate(s: State) {
    forall c :: c in s.contexts && s.contexts[c].detached && s.contexts[c].client in s.clients ==>
      Late(s.clients[s.contexts[c].client].phase)
  }

  ghost predicate SkippedLate(s: State) {
    forall t :: t in s.threads && s.threads[t].at.Skipped? && s.threads[t].client in s.clients ==>
      Late(s.clients[s.threads[t].client].phase)
  }

  lemma PhaseAfter(s: State, e: Event, cl: ClientId)
    requires Enabled(s, e) && Safe(s, e) && cl in s.clients && Late(s.clients[cl].phase) && cl in Next(s, e).clients
    ensures Late(Next(s, e).clients[cl].phase)
  {
    HookLifetimeParts.ClientsAfter(s, e);
    hide Next;
  }

  lemma ContextAfter(s: State, e: Event, c: ContextId)
    requires Enabled(s, e) && Safe(s, e) && c in Next(s, e).contexts
    ensures var r := Next(s, e);
            || (c in s.contexts && r.contexts[c].client == s.contexts[c].client
                && (r.contexts[c].detached == s.contexts[c].detached || (e.SetDetached? && s.clients[e.client].context == c)))
            || (e.Attach? && c !in s.contexts && !r.contexts[c].detached && r.contexts[c].client == e.client)
  {
    HookLifetimeParts.ContextsAfter(s, e);
    hide Next;
  }

  ghost predicate SameCallback(s: State, r: State, t: ThreadId)
    requires t in r.threads
  {
    if t in s.threads then
      && r.threads[t].context == s.threads[t].context && r.threads[t].client == s.threads[t].client
      && r.threads[t].FlowDelete? == s.threads[t].FlowDelete?
      && (s.threads[t].FlowDelete? ==> r.threads[t].flow == s.threads[t].flow)
    else r.threads[t].at.Arrived?
  }

  /** A callback keeps its identity, and a new one has just arrived. */
  lemma ThreadAfter(s: State, e: Event, t: ThreadId)
    requires Enabled(s, e) && Safe(s, e) && t in Next(s, e).threads
    ensures SameCallback(s, Next(s, e), t)
  {
    HookLifetimeParts.ThreadsAfter(s, e);
    hide Next;
  }

  lemma FlaggedLateStep(s: State, e: Event)
    requires Good(s) && FlaggedLate(s) && Enabled(s, e) && Safe(s, e)
    ensures FlaggedLate(Next(s, e))
  {
    var r := Next(s, e);
    forall c | c in r.contexts && r.contexts[c].detached && r.contexts[c].client in r.clients
      ensures Late(r.clients[r.contexts[c].client].phase)
    {
      ContextAfter(s, e, c);
      ContextClient(s, c);
      if c in s.contexts && s.contexts[c].detached {
        PhaseAfter(s, e, s.contexts[c].client);
      }
    }
  }

  lemma ContextClient(s: State, c: ContextId)
    requires Good(s)
    ensures c in s.contexts ==> s.contexts[c].client in s.clients && s.clients[s.contexts[c].client].context == c
  {
  }

  /** How a callback comes to its position. */
  ghost predicate CameTo(s: State, e: Event, at: Position, t: ThreadId) {
    || (t in s.threads && at == s.threads[t].at)
    || (at.Skipped? && e == Check(t) && t in s.threads && s.threads[t].context in s.contexts
        && s.contexts[s.threads[t].context].detached)
    || (at.Skipped? && e == Enter(t) && t in s.threads && s.threads[t].client in s.clients
        && !s.clients[s.threads[t].client].phase.AllowsEnter())
    || (!at.Skipped? && (e.ArriveClassify? || e.ArriveFlowDelete? || e.Check? || e.Enter? || e.MakeFlow? || e.AssociateFlow?
                         || e.DropFlow? || e.DeleteFlow?) && e.thread == t)
  }

  lemma MovedAt(s: State, e: Event, t: ThreadId)
    requires Enabled(s, e) && Safe(s, e) && t in Next(s, e).threads
    ensures CameTo(s, e, Next(s, e).threads[t].at, t)
  {
    HookLifetimeParts.ThreadsAfter(s, e);
    hide Next;
  }

  lemma SkippedWasLate(s: State, e: Event, t: ThreadId)
    requires Good(s) && FlaggedLate(s) && SkippedLate(s) && Enabled(s, e) && CameTo(s, e, Skipped, t)
    ensures t in s.threads && s.threads[t].client in s.clients && Late(s.clients[s.threads[t].client].phase)
  {
    HookLifetimeSafety.ThreadPointers(s, t);
  }

  lemma SkippedLateStep(s: State, e: Event)
    requires Good(s) && FlaggedLate(s) && SkippedLate(s) && Enabled(s, e) && Safe(s, e)
    ensures SkippedLate(Next(s, e))
  {
    hide Next, Safe, Enabled, Good, CameTo, FlaggedLate, Late;
    var r := Next(s, e);
    forall t | t in r.threads && r.threads[t].at.Skipped? && r.threads[t].client in r.clients
      ensures Late(r.clients[r.threads[t].client].phase)
    {
      MovedAt(s, e, t);
      ThreadAfter(s, e, t);
      SkippedWasLate(s, e, t);
      PhaseAfter(s, e, s.threads[t].client);
    }
  }

  /** A callback that is about to leave, or a flow-delete call that is inside, does not move by anyone else's step. */
  lemma CallbackStays(s: State, e: Event, t: ThreadId)
    requires Enabled(s, e) && Safe(s, e) && t in s.threads
    requires s.threads[t].at.Leaving? || (s.threads[t].FlowDelete? && s.threads[t].at.Entered?)
    requires e != Leave(t) && e != DeleteFlow(t)
    ensures t in Next(s, e).threads && Next(s, e).threads[t] == s.threads[t]
  {
    HookLifetimeParts.ThreadsAfter(s, e);
    hide Next;
  }

  lemma ClientAfter(s: State, e: Event, cl: ClientId)
    requires Enabled(s, e) && Safe(s, e) && cl in s.clients && s.clients[cl].phase.DetachStarted? && e != SetDetached(cl)
    ensures cl in Next(s, e).clients && Next(s, e).clients[cl].phase.DetachStarted?
  {
    HookLifetimeParts.ClientsAfter(s, e);
    hide Next;
  }

  lemma ClientStays(s: State, e: Event, cl: ClientId)
    requires Enabled(s, e) && Safe(s, e) && cl in s.clients && e != FreeClient(cl)
    ensures cl in Next(s, e).clients
  {
    HookLifetimeParts.ClientsAfter(s, e);
    hide Next;
  }
}

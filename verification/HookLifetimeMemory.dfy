/** The memory of clients, filter contexts and flow contexts over whole runs: each is freed once. */
module HookLifetimeMemory {
  import opened HookLifetime
  import opened HookLifetimeRuns
  import HookLifetimeParts

  datatype Memory = ClientMemory(client: ClientId) | ContextMemory(context: ContextId) | FlowMemory(flow: FlowId)

  /** A filter context is allocated until it is freed, also after its last reference is gone. */
  predicate Allocated(s: State, m: Memory) {
    match m
    case ClientMemory(cl) => cl in s.clients
    case ContextMemory(c) => c in s.contexts || c in s.dying
    case FlowMemory(w) => w in s.flows
  }

  predicate Allocates(e: Event, m: Memory) {
    match m
    case ClientMemory(cl) => e.Attach? && e.client == cl
    case ContextMemory(c) => e.Attach? && e.context == c
    case FlowMemory(w) => e.MakeFlow? && e.flow == w
  }

  ghost predicate Frees(s: State, e: Event, m: Memory)
    requires Enabled(s, e)
  {
    match m
    case ClientMemory(cl) => e == FreeClient(cl)
    case ContextMemory(c) => e == FreeContext(c)
    case FlowMemory(w) =>
      || (e.DropFlow? && s.threads[e.thread].at.flow == w)
      || (e.DeleteFlow? && s.threads[e.thread].flow == w)
  }

  lemma ClientBalance(s: State, e: Event, cl: ClientId)
    requires Enabled(s, e) && Safe(s, e)
    ensures cl in Next(s, e).clients <==> (e.Attach? && e.client == cl) || (cl in s.clients && e != FreeClient(cl))
  {
    HookLifetimeParts.ClientsAfter(s, e);
    hide Next;
  }

  predicate OfFlow(e: Event) {
    e.ArriveFlowDelete? || e.MakeFlow? || e.DropFlow? || e.AssociateFlow? || e.DeleteFlow?
  }

  lemma OtherFlows(s: State, e: Event)
    requires Enabled(s, e) && Safe(s, e) && !OfFlow(e)
    ensures Next(s, e).flows == s.flows
  {
    HookLifetimeParts.FlowsAfter(s, e);
    hide Next, Enabled, Safe;
  }

  lemma FlowBalance(s: State, e: Event, w: FlowId)
    requires Enabled(s, e) && Safe(s, e)
    ensures var m := FlowMemory(w);
            && (Frees(s, e, m) ==> w in s.flows)
            && (w in Next(s, e).flows <==> Allocates(e, m) || (w in s.flows && !Frees(s, e, m)))
  {
    if OfFlow(e) {
      HookLifetimeParts.FlowsAfter(s, e);
      hide Next;
    } else {
      OtherFlows(s, e);
      hide Next, Enabled, Safe;
    }
  }

  lemma DereferencedAllocated(s: State, c: ContextId, m: Memory)
    requires CanDereference(s, c)
    ensures m.ContextMemory? ==> (Allocated(Dereferenced(s, c), m) <==> Allocated(s, m))
  {
  }

  /** No step but these two touches the memory of a filter context. */
  lemma OtherContexts(s: State, e: Event, c: ContextId)
    requires Enabled(s, e) && Safe(s, e) && !e.Attach? && !e.FreeContext?
    ensures Allocated(Next(s, e), ContextMemory(c)) <==> Allocated(s, ContextMemory(c))
  {
    var m := ContextMemory(c);
    hide Dereferenced, GivesUp;
    match e
    case DropFlow(t) =>
      DereferencedAllocated(MovedTo(s.(flows := s.flows - {s.threads[t].at.flow}), t, Leaving), s.threads[t].context, m);
    case DeleteFlow(t) => DereferencedAllocated(WithoutFlow(s, t), s.threads[t].context, m);
    case FilterDeleted(f) => DereferencedAllocated(s.(filters := s.filters - {f}), s.filters[f], m);
    case DropInitial(cl) => DereferencedAllocated(InPhase(s, cl, CleanedUp), s.clients[cl].context, m);
    case Check(t) => GivesUpMemory(s, t);
    case Enter(t) => GivesUpMemory(s, t);
    case _ =>
  }

  lemma GivesUpMemory(s: State, t: ThreadId)
    requires t in s.threads
    ensures GivesUp(s, t).contexts == s.contexts && GivesUp(s, t).dying == s.dying
  {
  }

  lemma ContextBalance(s: State, e: Event, c: ContextId)
    requires Endings(s) && Enabled(s, e) && Safe(s, e)
    ensures var m := ContextMemory(c);
            Allocated(Next(s, e), m) <==> Allocates(e, m) || (Allocated(s, m) && !Frees(s, e, m))
  {
    if !e.Attach? && !e.FreeContext? {
      OtherContexts(s, e, c);
      hide Next, Enabled, Safe, Endings;
    }
  }

  /** Memory is allocated where it is free, freed where it is allocated, and otherwise as before. */
  lemma StepBalance(s: State, e: Event, m: Memory)
    requires Good(s) && Enabled(s, e) && Safe(s, e)
    ensures Allocates(e, m) ==> !Allocated(s, m)
    ensures Frees(s, e, m) ==> Allocated(s, m)
    ensures Allocated(Next(s, e), m) <==> Allocates(e, m) || (Allocated(s, m) && !Frees(s, e, m))
  {
    hide Next, Owners, Pointers, ReferenceCounts, RundownCounts, Threads, Phases, Safe;
    match m
    case ClientMemory(cl) => ClientBalance(s, e, cl);
    case ContextMemory(c) => ContextBalance(s, e, c);
    case FlowMemory(w) => FlowBalance(s, e, w);
  }

  /** Whoever dropped the last reference of a filter context can always go on to free it. */
  lemma DyingIsFreed(s: State, c: ContextId) returns (run: seq<Event>)
    requires Good(s) && c in s.dying
    ensures AllSafe(s, run) && !Allocated(After(s, run), ContextMemory(c))
  {
    hide Good, Allocated, AllSafe, After;
    run := [FreeContext(c)];
    var r := s;
    if !s.dying[c].left {
      StepIsGood(s, LeaveLast(c));
      OneStep(s, LeaveLast(c));
      r := Next(s, LeaveLast(c));
    }
    StepIsGood(r, FreeContext(c));
    StepBalance(r, FreeContext(c), ContextMemory(c));
    OneStep(r, FreeContext(c));
    if !s.dying[c].left {
      RunConcat(s, [LeaveLast(c)], run);
      run := [LeaveLast(c)] + run;
    }
  }

  lemma OneStep(s: State, e: Event)
    requires Enabled(s, e) && Safe(s, e)
    ensures AllSafe(s, [e]) && After(s, [e]) == Next(s, e)
  {
    hide Enabled, Safe, Next;
  }

  ghost function Allocations(run: seq<Event>, m: Memory): nat {
    if run == [] then 0 else (if Allocates(run[0], m) then 1 else 0) + Allocations(run[1..], m)
  }

  ghost function Releases(s: State, run: seq<Event>, m: Memory): nat
    requires AllSafe(s, run)
    decreases |run|
  {
    if run == [] then 0 else (if Frees(s, run[0], m) then 1 else 0) + Releases(Next(s, run[0]), run[1..], m)
  }

  lemma {:induction false} BalanceFrom(s: State, run: seq<Event>, m: Memory)
    requires Good(s) && AllSafe(s, run)
    ensures (if Allocated(s, m) then 1 else 0) + Allocations(run, m) ==
            Releases(s, run, m) + if Allocated(After(s, run), m) then 1 else 0
    decreases |run|
  {
    hide Good, Next, Enabled, Safe, Allocated, Allocates, Frees;
    if run != [] {
      StepIsGood(s, run[0]);
      StepBalance(s, run[0], m);
      BalanceFrom(Next(s, run[0]), run[1..], m);
    }
  }

  /** In every run the memory of a client, a filter context or a flow context has been freed as often as it was
      allocated, or once less and it is allocated now. So nothing is freed twice, and nothing that is gone was not freed. */
  lemma FreedOncePerAllocation(run: seq<Event>, m: Memory)
    requires AllEnabled(INITIAL, run)
    ensures AllSafe(INITIAL, run)
    ensures Allocations(run, m) == Releases(INITIAL, run, m) + if Allocated(After(INITIAL, run), m) then 1 else 0
  {
    RunsAreSafe(run);
    RunsAreSafe([]);
    BalanceFrom(INITIAL, run, m);
    assert !Allocated(INITIAL, m);
  }
}

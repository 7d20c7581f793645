/** Lifetime of hook clients and of the WFP filter contexts that point to them.

    The state holds the live objects only: an address that is missing from `clients`, `contexts`,
    `dying`, `filters` or `flows` is free memory. Steps are the atomic actions of the attach, classify, flow,
    filter-delete-notification and detach paths, interleaved in any order. */
module HookLifetime {

  type ClientId = nat
  type ContextId = nat
  type FilterId = nat
  type FlowId = nat
  type ThreadId = nat

  /** How far the detach of a client has come. */
  datatype Phase = Attached | DetachStarted | Flagged | CleanedUp | Waiting | RunDown
  {
    /** The initial reference on the filter context is dropped by the cleanup. */
    predicate HoldsInitial() { Attached? || DetachStarted? || Flagged? }

    /** Once the wait has begun, rundown protection can no longer be acquired. */
    predicate AllowsEnter() { !Waiting? && !RunDown? }
  }

  datatype Client = Client(phase: Phase, context: ContextId, rundown: nat)
  datatype FilterContext = FilterContext(client: ClientId, references: nat, detached: bool)

  /** A context whose last reference is gone. Whoever dropped it leaves the rundown protection of the client, without a
      lock, and then frees the memory. */
  datatype Dying = Dying(client: ClientId, left: bool)

  /** Who frees a flow context: the classify call that made it, WFP's flow, or a flow-delete call. */
  datatype Owner = MadeBy(thread: ThreadId) | Associated | DeletedBy(thread: ThreadId)
  datatype Flow = Flow(context: ContextId, owner: Owner)

  /** Where a callback is: it has its arguments; it has seen that the client is not detached; it goes on
      without rundown protection; it has entered; it has made a flow context; it is about to leave. */
  datatype Position = Arrived | Checked | Skipped | Entered | WithFlow(flow: FlowId) | Leaving

  /** A callback in progress. A classify call runs on a filter; a flow-delete call does not. */
  datatype Thread =
    | Classify(filter: FilterId, context: ContextId, client: ClientId, at: Position)
    | FlowDelete(flow: FlowId, context: ContextId, client: ClientId, at: Position)
  {
    /** The callback is between entering and leaving rundown protection. */
    predicate Holds() {
      at.Entered? || at.WithFlow? || at.Leaving?
    }
  }

  datatype State = State(clients: map<ClientId, Client>, contexts: map<ContextId, FilterContext>,
                         dying: map<ContextId, Dying>,
                         filters: map<FilterId, ContextId>, flows: map<FlowId, Flow>,
                         threads: map<ThreadId, Thread>)

  const INITIAL := State(map[], map[], map[], map[], map[], map[])

  // ---- what the counters count ----

  ghost function FiltersOf(s: State, c: ContextId): set<FilterId> {
    set f | f in s.filters && s.filters[f] == c
  }

  ghost function FlowsOf(s: State, c: ContextId): set<FlowId> {
    set w | w in s.flows && s.flows[w].context == c
  }

  ghost function HoldersOf(s: State, cl: ClientId): set<ThreadId> {
    set t | t in s.threads && s.threads[t].Holds() && s.threads[t].client == cl
  }

  ghost function Initial(s: State, c: ContextId): nat {
    if c in s.contexts && s.contexts[c].client in s.clients && s.clients[s.contexts[c].client].phase.HoldsInitial()
    then 1 else 0
  }

  /** How many holders of a reference a context has: its own, its filters' and its flows'. */
  ghost function Sources(s: State, c: ContextId): nat {
    Initial(s, c) + |FiltersOf(s, c)| + |FlowsOf(s, c)|
  }

  /** The client's filter context is alive. */
  ghost predicate ContextAlive(s: State, cl: ClientId) {
    && cl in s.clients && s.clients[cl].context in s.contexts && s.contexts[s.clients[cl].context].client == cl
  }

  /** The client's filter context holds rundown protection: it is alive, or has not left yet. */
  ghost predicate ContextHolds(s: State, cl: ClientId) {
    ContextAlive(s, cl) || (cl in s.clients && s.clients[cl].context in s.dying
      && s.dying[s.clients[cl].context] == Dying(cl, false))
  }

  // ---- the invariant ----

  /** No dangling pointer: filters and flows point to live contexts, contexts to live clients. */
  ghost predicate Pointers(s: State) {
    && (forall f :: f in s.filters ==> s.filters[f] in s.contexts)
    && (forall w :: w in s.flows ==> s.flows[w].context in s.contexts)
    && (forall c :: c in s.contexts ==>
          s.contexts[c].client in s.clients && s.clients[s.contexts[c].client].context == c)
  }

  /** A dying context points to its live client until it has left. */
  ghost predicate Endings(s: State) {
    && (forall c :: c in s.dying && !s.dying[c].left ==>
          s.dying[c].client in s.clients && s.clients[s.dying[c].client].context == c)
    && (forall c :: c in s.dying ==> c !in s.contexts)
  }

  ghost predicate ReferenceCounts(s: State) {
    forall c :: c in s.contexts ==>
      s.contexts[c].references == Sources(s, c) && s.contexts[c].references > 0
  }

  ghost predicate RundownCounts(s: State) {
    forall cl :: cl in s.clients ==>
      s.clients[cl].rundown == (if ContextHolds(s, cl) then 1 else 0) + |HoldersOf(s, cl)|
  }

  ghost predicate ThreadOk(s: State, t: ThreadId, th: Thread) {
    match th
    case Classify(f, c, cl, at) =>
      && f in s.filters && s.filters[f] == c && c in s.contexts && s.contexts[c].client == cl
      && !at.Skipped?
      && (at.WithFlow? ==> at.flow in s.flows && s.flows[at.flow] == Flow(c, MadeBy(t)))
    case FlowDelete(w, c, cl, at) =>
      && !at.WithFlow?
      && cl in s.clients
      && (!at.Leaving? ==> w in s.flows && s.flows[w] == Flow(c, DeletedBy(t))
                           && c in s.contexts && s.contexts[c].client == cl)
  }

  ghost predicate Threads(s: State) {
    forall t :: t in s.threads ==> ThreadOk(s, t, s.threads[t])
  }

  ghost predicate Phases(s: State) {
    forall cl :: cl in s.clients ==>
      && (s.clients[cl].phase.HoldsInitial() ==> ContextAlive(s, cl))
      && (s.clients[cl].phase.RunDown? ==> s.clients[cl].rundown == 0)
  }

  ghost predicate Inv(s: State) {
    Pointers(s) && Endings(s) && ReferenceCounts(s) && RundownCounts(s) && Threads(s) && Phases(s)
  }

  // ---- the steps ----

  datatype Event =
    // the attach callback succeeded: one context, referenced by itself and by every filter
    | Attach(client: ClientId, context: ContextId, newFilters: set<FilterId>)
    // WFP classifies on a filter
    | ArriveClassify(thread: ThreadId, filter: FilterId)
    // WFP deletes a flow
    | ArriveFlowDelete(thread: ThreadId, flow: FlowId)
    // a callback tests client_detached, tries to enter rundown protection, invokes the program
    | Check(thread: ThreadId)
    | Enter(thread: ThreadId)
    | Invoke(thread: ThreadId)
    // a classify call makes a flow context, gives it up, or hands it to WFP
    | MakeFlow(thread: ThreadId, flow: FlowId)
    | DropFlow(thread: ThreadId)
    | AssociateFlow(thread: ThreadId)
    // a flow-delete call dereferences the filter context and frees the flow context
    | DeleteFlow(thread: ThreadId)
    // a callback leaves rundown protection
    | Leave(thread: ThreadId)
    // WFP notifies that a filter is deleted
    | FilterDeleted(filter: FilterId)
    // whoever dropped the last reference leaves rundown protection, and then frees the context
    | LeaveLast(context: ContextId)
    | FreeContext(context: ContextId)
    // detach: filters marked for deletion; client_detached set; initial reference dropped;
    // the work item begins to wait, is released, and the client is freed
    | StartDetach(client: ClientId)
    | SetDetached(client: ClientId)
    | DropInitial(client: ClientId)
    | StartWait(client: ClientId)
    | FinishWait(client: ClientId)
    | FreeClient(client: ClientId)

  /** Whether the step can be the next one, by the control state of its own thread and by what WFP and
      NMR promise: they classify on existing filters, notify once per filter and not during a classify
      call on it, and delete an associated flow once. It does not say that memory is live. */
  ghost predicate Enabled(s: State, e: Event) {
    match e
    case Attach(cl, c, fs) => cl !in s.clients && c !in s.contexts && c !in s.dying && fs !! s.filters.Keys
    case ArriveClassify(t, f) => t !in s.threads && f in s.filters
    case ArriveFlowDelete(t, w) => t !in s.threads && w in s.flows && s.flows[w].owner.Associated?
    case Check(t) => t in s.threads && s.threads[t].at.Arrived?
    case Enter(t) => t in s.threads && s.threads[t].at.Checked?
    case Invoke(t) => t in s.threads && (s.threads[t].at.Entered? || s.threads[t].at.WithFlow?)
    case MakeFlow(t, w) => t in s.threads && s.threads[t].Classify? && s.threads[t].at.Entered? && w !in s.flows
    case DropFlow(t) => t in s.threads && s.threads[t].Classify? && s.threads[t].at.WithFlow?
    case AssociateFlow(t) => t in s.threads && s.threads[t].Classify? && s.threads[t].at.WithFlow?
    case DeleteFlow(t) =>
      t in s.threads && s.threads[t].FlowDelete? && (s.threads[t].at.Entered? || s.threads[t].at.Skipped?)
    case Leave(t) =>
      t in s.threads && (s.threads[t].at.Leaving? || (s.threads[t].Classify? && s.threads[t].at.Entered?))
    case FilterDeleted(f) =>
      f in s.filters && forall t :: t in s.threads && s.threads[t].Classify? ==> s.threads[t].filter != f
    case LeaveLast(c) => c in s.dying && !s.dying[c].left
    case FreeContext(c) => c in s.dying && s.dying[c].left
    case StartDetach(cl) => cl in s.clients && s.clients[cl].phase.Attached?
    case SetDetached(cl) => cl in s.clients && s.clients[cl].phase.DetachStarted?
    case DropInitial(cl) => cl in s.clients && s.clients[cl].phase.Flagged?
    case StartWait(cl) => cl in s.clients && s.clients[cl].phase.CleanedUp?
    case FinishWait(cl) => cl in s.clients && s.clients[cl].phase.Waiting? && s.clients[cl].rundown == 0
    case FreeClient(cl) => cl in s.clients && s.clients[cl].phase.RunDown?
  }

  predicate CanDereference(s: State, c: ContextId) {
    c in s.contexts && s.contexts[c].references > 0
  }

  /** Every client, filter context and flow that the step needs is live. The accesses to flow contexts that are made
      through lists, or after a flow is handed to WFP, are those of FlowLists. */
  ghost predicate Safe(s: State, e: Event)
    requires Enabled(s, e)
  {
    match e
    case Attach(_, _, _) => true
    case ArriveClassify(_, f) => s.filters[f] in s.contexts
    case ArriveFlowDelete(_, w) => s.flows[w].context in s.contexts
    case Check(t) => s.threads[t].context in s.contexts
    case Enter(t) => s.threads[t].client in s.clients
    case Invoke(t) => s.threads[t].client in s.clients
    case MakeFlow(t, _) => s.threads[t].context in s.contexts
    case DropFlow(t) => s.threads[t].at.flow in s.flows && CanDereference(s, s.threads[t].context)
    case AssociateFlow(t) => s.threads[t].at.flow in s.flows && s.threads[t].context in s.contexts
    case DeleteFlow(t) => s.threads[t].flow in s.flows && CanDereference(s, s.threads[t].context)
    case Leave(t) => s.threads[t].client in s.clients && s.clients[s.threads[t].client].rundown > 0
    case FilterDeleted(f) => CanDereference(s, s.filters[f])
    case LeaveLast(c) => s.dying[c].client in s.clients && s.clients[s.dying[c].client].rundown > 0
    case FreeContext(_) => true
    case StartDetach(cl) => s.clients[cl].context in s.contexts
    case SetDetached(cl) => s.clients[cl].context in s.contexts
    case DropInitial(cl) => CanDereference(s, s.clients[cl].context)
    case StartWait(_) => true
    case FinishWait(_) => true
    case FreeClient(_) => true
  }

  function Released(s: State, cl: ClientId): State
    requires cl in s.clients && s.clients[cl].rundown > 0
  {
    s.(clients := s.clients[cl := s.clients[cl].(rundown := s.clients[cl].rundown - 1)])
  }

  /** The decrement of the dereference macro: with its last reference the context begins to die. */
  function Dereferenced(s: State, c: ContextId): State
    requires CanDereference(s, c)
  {
    var x := s.contexts[c];
    if x.references == 1 then s.(contexts := s.contexts - {c}, dying := s.dying[c := Dying(x.client, false)])
    else s.(contexts := s.contexts[c := x.(references := x.references - 1)])
  }

  function Referenced(s: State, c: ContextId): State
    requires c in s.contexts
  {
    s.(contexts := s.contexts[c := s.contexts[c].(references := s.contexts[c].references + 1)])
  }

  function MovedTo(s: State, t: ThreadId, at: Position): State
    requires t in s.threads
  {
    s.(threads := s.threads[t := s.threads[t].(at := at)])
  }

  function Gone(s: State, t: ThreadId): State {
    s.(threads := s.threads - {t})
  }

  function InPhase(s: State, cl: ClientId, phase: Phase): State
    requires cl in s.clients
  {
    s.(clients := s.clients[cl := s.clients[cl].(phase := phase)])
  }

  // ---- the effect of each step ----

  ghost function AfterAttach(s: State, cl: ClientId, c: ContextId, fs: set<FilterId>): State {
    State(s.clients[cl := Client(Attached, c, 1)], s.contexts[c := FilterContext(cl, 1 + |fs|, false)],
          s.dying, s.filters + (map f | f in fs :: c), s.flows, s.threads)
  }

  function AfterArriveClassify(s: State, t: ThreadId, f: FilterId): State
    requires f in s.filters && s.filters[f] in s.contexts
  {
    s.(threads := s.threads[t := Classify(f, s.filters[f], s.contexts[s.filters[f]].client, Arrived)])
  }

  function AfterArriveFlowDelete(s: State, t: ThreadId, w: FlowId): State
    requires w in s.flows && s.flows[w].context in s.contexts
  {
    var c := s.flows[w].context;
    s.(threads := s.threads[t := FlowDelete(w, c, s.contexts[c].client, Arrived)],
       flows := s.flows[w := Flow(c, DeletedBy(t))])
  }

  /** A classify call exits, a flow-delete call goes on without rundown protection. */
  function GivesUp(s: State, t: ThreadId): State
    requires t in s.threads
  {
    if s.threads[t].Classify? then Gone(s, t) else MovedTo(s, t, Skipped)
  }

  function AfterCheck(s: State, t: ThreadId): State
    requires t in s.threads && s.threads[t].context in s.contexts
  {
    if s.contexts[s.threads[t].context].detached then GivesUp(s, t) else MovedTo(s, t, Checked)
  }

  function Acquired(s: State, cl: ClientId): State
    requires cl in s.clients
  {
    s.(clients := s.clients[cl := s.clients[cl].(rundown := s.clients[cl].rundown + 1)])
  }

  function AfterEnter(s: State, t: ThreadId): State
    requires t in s.threads && s.threads[t].client in s.clients
  {
    if s.clients[s.threads[t].client].phase.AllowsEnter()
    then MovedTo(Acquired(s, s.threads[t].client), t, Entered) else GivesUp(s, t)
  }

  function AfterMakeFlow(s: State, t: ThreadId, w: FlowId): State
    requires t in s.threads && s.threads[t].context in s.contexts
  {
    var c := s.threads[t].context;
    MovedTo(Referenced(s, c).(flows := s.flows[w := Flow(c, MadeBy(t))]), t, WithFlow(w))
  }

  function AfterDropFlow(s: State, t: ThreadId): State
    requires t in s.threads && s.threads[t].at.WithFlow? && CanDereference(s, s.threads[t].context)
  {
    Dereferenced(MovedTo(s.(flows := s.flows - {s.threads[t].at.flow}), t, Leaving), s.threads[t].context)
  }

  function AfterAssociateFlow(s: State, t: ThreadId): State
    requires t in s.threads && s.threads[t].at.WithFlow?
  {
    MovedTo(s.(flows := s.flows[s.threads[t].at.flow := Flow(s.threads[t].context, Associated)]), t, Leaving)
  }

  /** The flow-delete call has freed its flow; it still has to leave if it entered. */
  function WithoutFlow(s: State, t: ThreadId): State
    requires t in s.threads && s.threads[t].FlowDelete?
  {
    var freed := s.(flows := s.flows - {s.threads[t].flow});
    if s.threads[t].at.Entered? then MovedTo(freed, t, Leaving) else Gone(freed, t)
  }

  function AfterDeleteFlow(s: State, t: ThreadId): State
    requires t in s.threads && s.threads[t].FlowDelete? && CanDereference(s, s.threads[t].context)
  {
    Dereferenced(WithoutFlow(s, t), s.threads[t].context)
  }

  function AfterLeave(s: State, t: ThreadId): State
    requires t in s.threads && s.threads[t].client in s.clients && s.clients[s.threads[t].client].rundown > 0
  {
    Gone(Released(s, s.threads[t].client), t)
  }

  function AfterFilterDeleted(s: State, f: FilterId): State
    requires f in s.filters && CanDereference(s, s.filters[f])
  {
    Dereferenced(s.(filters := s.filters - {f}), s.filters[f])
  }

  function AfterLeaveLast(s: State, c: ContextId): State
    requires c in s.dying && s.dying[c].client in s.clients && s.clients[s.dying[c].client].rundown > 0
  {
    Released(s, s.dying[c].client).(dying := s.dying[c := s.dying[c].(left := true)])
  }

  function AfterSetDetached(s: State, cl: ClientId): State
    requires cl in s.clients && s.clients[cl].context in s.contexts
  {
    var c := s.clients[cl].context;
    InPhase(s, cl, Flagged).(contexts := s.contexts[c := s.contexts[c].(detached := true)])
  }

  function AfterDropInitial(s: State, cl: ClientId): State
    requires cl in s.clients && CanDereference(s, s.clients[cl].context)
  {
    Dereferenced(InPhase(s, cl, CleanedUp), s.clients[cl].context)
  }

  ghost function Next(s: State, e: Event): State
    requires Enabled(s, e) && Safe(s, e)
  {
    match e
    case Attach(cl, c, fs) => AfterAttach(s, cl, c, fs)
    case ArriveClassify(t, f) => AfterArriveClassify(s, t, f)
    case ArriveFlowDelete(t, w) => AfterArriveFlowDelete(s, t, w)
    case Check(t) => AfterCheck(s, t)
    case Enter(t) => AfterEnter(s, t)
    case Invoke(t) => s
    case MakeFlow(t, w) => AfterMakeFlow(s, t, w)
    case DropFlow(t) => AfterDropFlow(s, t)
    case AssociateFlow(t) => AfterAssociateFlow(s, t)
    case DeleteFlow(t) => AfterDeleteFlow(s, t)
    case Leave(t) => AfterLeave(s, t)
    case FilterDeleted(f) => AfterFilterDeleted(s, f)
    case LeaveLast(c) => AfterLeaveLast(s, c)
    case FreeContext(c) => s.(dying := s.dying - {c})
    case StartDetach(cl) => InPhase(s, cl, DetachStarted)
    case SetDetached(cl) => AfterSetDetached(s, cl)
    case DropInitial(cl) => AfterDropInitial(s, cl)
    case StartWait(cl) => InPhase(s, cl, Waiting)
    case FinishWait(cl) => InPhase(s, cl, RunDown)
    case FreeClient(cl) => s.(clients := s.clients - {cl})
  }
}

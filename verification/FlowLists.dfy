/** Flow contexts and the lists that hold them. A classify call hands its flow context to WFP and only then inserts it
    into the list of the filter context; a flow-delete call takes it off the list and frees it; a detach moves the
    list to a local one and has WFP delete each flow. This machine restricts the steps of the lifetime protocol by the
    list steps between them, so every run of it is a run of that protocol. */
module FlowLists {
  import opened Wrappers
  import opened HookLifetime

  /** Where the loop of a drain is, which runs without the lock: before its test; past the test; it has read the first
      entry of its list and the one after it; it holds the entry that it took off. */
  datatype Cursor = Idle | Tested | Read(head: FlowId, next: Option<FlowId>) | Holding(flow: FlowId)

  /** The drain of a detach with its local list; or it is over. */
  datatype Drain = Draining(local: seq<FlowId>, cursor: Cursor) | Drained

  function Second(list: seq<FlowId>): Option<FlowId> {
    if |list| < 2 then None else Some(list[1])
  }

  /** The local list is still as the loop has found it. */
  predicate Intact(d: Drain) {
    d.Draining? ==>
      match d.cursor
      case Tested => d.local != []
      case Read(head, next) => d.local != [] && d.local[0] == head && Second(d.local) == next
      case _ => true
  }

  /** `unpublished` are classify calls that have associated a flow and not inserted it; `unlinked` are flow-delete calls
      that have taken theirs off its list; flow contexts from `born` on have not been allocated yet. */
  datatype ListState = ListState(core: State, born: nat, unpublished: map<ThreadId, FlowId>, unlinked: set<ThreadId>,
                                 lists: map<ContextId, seq<FlowId>>, drains: map<ClientId, Drain>)

  const START := ListState(INITIAL, 0, map[], {}, map[], map[])

  datatype ListEvent =
    | Step(event: Event)
    // a classify call inserts its flow at the end of the list
    | Publish(thread: ThreadId)
    // a flow-delete call that has entered takes its flow off whatever list it is on
    | Unlink(thread: ThreadId)
    // a detach takes the list; finds it not empty, reads its first entry and the one after it, takes the first off by
    // linking the other to the list head, has WFP delete that flow; and is done when it finds the list empty
    | TakeList(client: ClientId)
    | TestList(client: ClientId)
    | ReadHead(client: ClientId)
    | Relink(client: ClientId)
    | RemoveFlow(client: ClientId)
    | FinishDrain(client: ClientId)

  ghost predicate InDrain(s: ListState, cl: ClientId) {
    cl in s.drains && s.drains[cl].Draining?
  }

  /** The list steps that the source puts between the steps of the lifetime protocol. */
  ghost predicate Allows(s: ListState, e: Event)
    requires Enabled(s.core, e)
  {
    match e
    case MakeFlow(_, w) => w >= s.born
    case Leave(t) => t !in s.unpublished
    case Invoke(t) => s.core.threads[t].FlowDelete? ==> t in s.unlinked
    case DeleteFlow(t) => s.core.threads[t].at.Entered? ==> t in s.unlinked
    case SetDetached(cl) => cl in s.drains && s.drains[cl].Drained?
    case _ => true
  }

  ghost predicate ListEnabled(s: ListState, e: ListEvent) {
    match e
    case Step(core) => Enabled(s.core, core) && Allows(s, core)
    case Publish(t) => t in s.unpublished && t in s.core.threads && s.core.threads[t].context in s.lists
    case Unlink(t) =>
      t in s.core.threads && s.core.threads[t].FlowDelete? && s.core.threads[t].at.Entered? && t !in s.unlinked
    case TakeList(cl) =>
      && cl in s.core.clients && s.core.clients[cl].phase.DetachStarted? && cl !in s.drains
      && s.core.clients[cl].context in s.lists
    case TestList(cl) => InDrain(s, cl) && s.drains[cl].cursor.Idle? && s.drains[cl].local != []
    case ReadHead(cl) => InDrain(s, cl) && s.drains[cl].cursor.Tested?
    case Relink(cl) => InDrain(s, cl) && s.drains[cl].cursor.Read?
    case RemoveFlow(cl) => InDrain(s, cl) && s.drains[cl].cursor.Holding?
    case FinishDrain(cl) => InDrain(s, cl) && s.drains[cl].cursor.Idle? && s.drains[cl].local == []
  }

  // ---- effects ----

  function Without(list: seq<FlowId>, w: FlowId): seq<FlowId> {
    if list == [] then [] else if list[0] == w then Without(list[1..], w) else [list[0]] + Without(list[1..], w)
  }

  function WithoutInDrain(d: Drain, w: FlowId): Drain {
    if d.Draining? then d.(local := Without(d.local, w)) else d
  }

  ghost function AfterStep(s: ListState, e: Event): ListState
    requires Enabled(s.core, e) && Safe(s.core, e)
  {
    var r := s.(core := Next(s.core, e));
    match e
    case Attach(cl, c, _) => r.(lists := s.lists[c := []])
    case MakeFlow(_, w) => r.(born := w + 1)
    case AssociateFlow(t) => r.(unpublished := s.unpublished[t := s.core.threads[t].at.flow])
    case DeleteFlow(t) => r.(unlinked := s.unlinked - {t})
    case FreeContext(c) => r.(lists := s.lists - {c})
    case FreeClient(cl) => r.(drains := s.drains - {cl})
    case _ => r
  }

  ghost function AfterUnlink(s: ListState, t: ThreadId): ListState
    requires t in s.core.threads && s.core.threads[t].FlowDelete?
  {
    var w := s.core.threads[t].flow;
    s.(unlinked := s.unlinked + {t}, lists := map c | c in s.lists :: Without(s.lists[c], w),
       drains := map cl | cl in s.drains :: WithoutInDrain(s.drains[cl], w))
  }

  /** An empty list has no first entry to read: what the loop takes for one is the list head itself. */
  function AfterReadHead(d: Drain): Drain
    requires d.Draining?
  {
    d.(cursor := if d.local == [] then Idle else Read(d.local[0], Second(d.local)))
  }

  /** On a list that has changed since it was read, the links that are written no longer belong to it. */
  function AfterRelink(d: Drain): Drain
    requires d.Draining? && d.cursor.Read?
  {
    Draining(if Intact(d) then d.local[1..] else d.local, Holding(d.cursor.head))
  }

  ghost function ListNext(s: ListState, e: ListEvent): ListState
    requires ListEnabled(s, e) && (e.Step? ==> Safe(s.core, e.event))
  {
    match e
    case Step(core) => AfterStep(s, core)
    case Publish(t) =>
      var c := s.core.threads[t].context;
      s.(lists := s.lists[c := s.lists[c] + [s.unpublished[t]]], unpublished := s.unpublished - {t})
    case Unlink(t) => AfterUnlink(s, t)
    case TakeList(cl) =>
      var c := s.core.clients[cl].context;
      s.(drains := s.drains[cl := Draining(s.lists[c], Idle)], lists := s.lists[c := []])
    case TestList(cl) => s.(drains := s.drains[cl := s.drains[cl].(cursor := Tested)])
    case ReadHead(cl) => s.(drains := s.drains[cl := AfterReadHead(s.drains[cl])])
    case Relink(cl) => s.(drains := s.drains[cl := AfterRelink(s.drains[cl])])
    case RemoveFlow(cl) => s.(drains := s.drains[cl := s.drains[cl].(cursor := Idle)])
    case FinishDrain(cl) => s.(drains := s.drains[cl := Drained])
  }

  // ---- what the list steps touch ----

  ghost predicate Live(s: ListState, w: FlowId) {
    w in s.core.flows
  }

  ghost predicate FirstLive(s: ListState, list: seq<FlowId>) {
    list != [] ==> Live(s, list[0])
  }

  ghost predicate LastLive(s: ListState, list: seq<FlowId>) {
    list != [] ==> Live(s, list[|list| - 1])
  }

  /** The neighbours of every occurrence of the flow, whose links an unlink writes. */
  ghost predicate NeighboursLive(s: ListState, list: seq<FlowId>, w: FlowId) {
    forall i :: 0 <= i < |list| && list[i] == w ==>
      (i > 0 ==> Live(s, list[i - 1])) && (i + 1 < |list| ==> Live(s, list[i + 1]))
  }

  /** The flow contexts that the step itself is about are live and where it expects them: linked when one is unlinked,
      and still first on the local list when the drain reads and takes one off. */
  ghost predicate OwnFlowLive(s: ListState, e: ListEvent)
    requires ListEnabled(s, e)
  {
    match e
    case Step(_) => true
    case Publish(t) => Live(s, s.unpublished[t])
    case Unlink(t) => Live(s, s.core.threads[t].flow) && s.core.threads[t].flow !in s.unpublished.Values
    case TakeList(_) => true
    case TestList(_) => true
    case ReadHead(cl) => Intact(s.drains[cl]) && Live(s, s.drains[cl].local[0])
    case Relink(cl) =>
      var d := s.drains[cl];
      Intact(d) && Live(s, d.cursor.head) && (d.cursor.next.Some? ==> Live(s, d.cursor.next.value))
    case RemoveFlow(cl) => Live(s, s.drains[cl].cursor.flow)
    case FinishDrain(_) => true
  }

  /** The other flow contexts whose links the step writes are live. */
  ghost predicate LinksLive(s: ListState, e: ListEvent)
    requires ListEnabled(s, e)
  {
    match e
    case Step(_) => true
    case Publish(t) => LastLive(s, s.lists[s.core.threads[t].context])
    case Unlink(t) =>
      && (forall c :: c in s.lists ==> NeighboursLive(s, s.lists[c], s.core.threads[t].flow))
      && (forall cl :: InDrain(s, cl) ==> NeighboursLive(s, s.drains[cl].local, s.core.threads[t].flow))
    case TakeList(cl) =>
      var list := s.lists[s.core.clients[cl].context];
      FirstLive(s, list) && LastLive(s, list)
    case _ => true
  }

  ghost predicate ListSafe(s: ListState, e: ListEvent)
    requires ListEnabled(s, e)
  {
    OwnFlowLive(s, e) && LinksLive(s, e) && (e.Step? ==> Safe(s.core, e.event))
  }
}

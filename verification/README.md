# eBPF for Windows: verified models

This project models three parts of eBPF for Windows in Dafny and proves how they behave over whole runs.

**The blocked-connection store and the two-layer connect verdict** (`netebpfext/net_ebpf_ext_sock_addr.c`).
A program attached to connect gives its verdict at the CONNECT_REDIRECT layer, but a REJECT can only be enforced later, at
AUTH_CONNECT. In between it is kept in a store made of an AVL table, an LRU list threaded through the table's nodes, a pool of
1000 preallocated contexts and a list of those in use.

- `ConnectionContexts` is what the store means: two maps from key to time stamp, and the effect of each operation on them.
- `StoreShape` is the linked structure, the invariant that makes it one partial map, and each list operation on it.
- `BlockedContextStore` is the store as a class; every operation is proved against its effect on the two maps.
- `ConnectClassify` is what the two callbacks decide and under which key; `ConnectProtocol` is runs of both, over any number of
  connections, and what is blocked after them.

**The lifetime of hook clients and filter contexts** (`netebpfext/net_ebpf_ext_hook_provider.c`, `net_ebpf_ext.c`,
`net_ebpf_ext.h`, `net_ebpf_ext_sock_ops.c`). A filter context is referenced by its client, its WFP filters and its flow contexts,
and holds rundown protection on the client while it lives.

- `HookLifetime` is a state machine over the atomic steps of attach, classify, flow, filter-delete notification and detach, in any
  interleaving. A step is enabled by the control state of its thread; whether the memory it touches is live is what is proved.
- `HookLifetimeSafety` proves the invariant step by step; `HookLifetimeRuns` lifts it to runs and proves the detach barrier;
  `DetachCompletion` proves that a detach never gets stuck; `HookLifetimeMemory` counts allocations and frees. `HookLifetimeParts` and
  `HookLifetimeSteps` say what a step does to one part of the state.
- `FlowLists` adds the lists of flow contexts: publication after association, the unlink of a flow-delete call, and the drain of a
  detach. `FlowListSafety`, `FlowListWindows` and `FlowListLinks` prove exactly when the accesses to flow contexts are safe;
  `FlowListDrains` proves that a drain ends and forgets no flow context; `FlowListRuns` has runs in which accesses are not safe.
- `WfpFilterContext` is the filter context as a class with its filter array; `AttachExclusivity` is the provider's list of clients.

**The user-mode loader** (`libs/api/ebpf_api.cpp`, `libs/api/libbpf_map.cpp`) with the kernel handlers it talks to.

- `MapTemplates`, `MapKernel`, `MapCreationSteps` and `MapCreation`: creating the maps of an object in dependency order, reusing
  pinned maps, and undoing the pins when it fails.
- `PinMaps`: pinning all maps of an object under a directory, with its rollback walk, and unpinning.
- `DefinitionCache`: the process-wide cache of map definitions by handle.
- `BatchRequests` and `BatchLookup`: chunked batch update, delete and lookup, at the level of request bytes.
- `RingBufferSubscription`: completions and unsubscribe of a ring buffer subscription, in any interleaving, and the records that the
  subscriber is given.
- `NativeLoad`: who owns the handles of a natively loaded module.

`Wrappers` and `Compartments` hold the option type and the compartment test that several modules share.

What the environment does is a parameter or an enabled step: memory allocation, kernel answers, the clock, WFP and NMR callbacks.
WFP is taken to classify on existing filters only, to report a deleted filter once and not during a classify call on it, to delete
an associated flow once, and to leave no filter behind after an aborted transaction. Where a result needs it, WFP is assumed to show
AUTH_CONNECT an IPv4-mapped connection in its IPv4 form. NMR is taken to serialise attaches on one
provider. The kernel stores map definitions as given. Sections under a lock are one step; the loop of a
drain, which runs without the lock, is split into its test, its reads, its writes and its removal call.

Nine results say that the code does not do what one would expect, each with the exact condition:

- A REJECT is lost while the system clock is below 60 seconds, because the expiry time wraps (`OwnPurge`, `FirstMinuteForgets`).
- A later verdict does not clear an earlier REJECT of the same connection when exactly one of the two calls ends with the address
  converted from its IPv4-mapped form (`StaleRejectCleared`, `AllowedButStillBlocked`).
- If WFP shows AUTH_CONNECT an IPv4-mapped connection in its IPv4 form, a REJECT of it that was given without asking the program is
  never enforced (`MappedRejectEnforced`).
- A REJECT of a program that changed the destination before it rejected is recorded for the changed address, and not enforced for the
  connection that it was asked about (`RejectIsForAddressLeft`).
- A flow context that WFP deletes between its association and its publication, or after a drain took it off its list and before the
  drain removes it, is used after it is freed. A flow-delete call that unlinks a flow context while a drain, which holds no lock, takes
  it or the one before it off its list leaves the drain with links that are no longer there. A flow-delete call that finds the client
  detached leaves the freed flow context on its list, where the next neighbour meets it (`CleanExactly`, `WindowsExactly`,
  `AccessesExactly`, `DeleteOvertakesPublication`, `DeleteOvertakesTest`, `DeleteOvertakesDrain`, `FreedWhileListed`).
- A client can be freed while its filter context is still allocated, because the last dereference leaves rundown protection before it
  frees; nothing touches the client after that (`WaitReleasedExactly`, `ClientFreedBeforeContext`).
- Batch update does not end when one entry is larger than a request and every request reaches the kernel (`UpdateEndsExactly`,
  `OversizedEntry`).
- Batch lookup fails when the entries left are fewer than requested and fill their last reply exactly (`Lookup`,
  `FullReplyThenNothing`, `FullReplyFails`).
- A ring buffer subscription is not freed when its query fails by itself after the unsubscribe call, or when a callback cannot get
  the map's properties or register its wait (`FreedExactlyOnce`, `FailureMeetsUnsubscribe`).

The code and its documentation disagree in one place that is modelled: `include/ebpf_nethooks.h:208-211` says that any other verdict
is treated as REJECT, while the redirect callback treats every verdict other than 0 as not rejecting. The model follows the code.

## Model

| member | source | states |
|---|---|---|
| BlockedContextStore.Store.FindAndRemove | netebpfext/net_ebpf_ext_sock_addr.c:904-953 | returns true exactly when the key is in the table or the low-memory list; afterwards the key is absent and everything else is unchanged, and no pool context is lost |
| BlockedContextStore.Store.RemoveNode | netebpfext/net_ebpf_ext_sock_addr.c:915-928 | taking a node off the LRU list and the table removes exactly its key from the contents and keeps table, lists and counters in agreement |
| BlockedContextStore.Store.RemoveLow | netebpfext/net_ebpf_ext_sock_addr.c:935-947 | taking a context off the low-memory list removes exactly its key; the context is back in the pool or freed |
| BlockedContextStore.Store.Purge | netebpfext/net_ebpf_ext_sock_addr.c:973-1031 | from the tail of the LRU list it drops the stale entries up to the first fresh one, and from the low-memory list all stale entries; nothing else changes, and the pool keeps its size; with delete-all everything in use is gone and the free list is untouched |
| ConnectionContexts.KeptExactly | netebpfext/net_ebpf_ext_sock_addr.c:973-1007 | a purge keeps an entry of the table exactly when its stamp is after the expiry time, or such an entry was inserted before it |
| BlockedContextStore.Store.InsertToLowMemoryList | netebpfext/net_ebpf_ext_sock_addr.c:1033-1065 | the key is recorded exactly when a pool context is free; otherwise nothing changes |
| BlockedContextStore.Store.Insert | netebpfext/net_ebpf_ext_sock_addr.c:1067-1118 | the new contents are the old ones without the key, with the key in the table, in the low-memory list or nowhere, less what a purge drops; every key stays in at most one list |
| BlockedContextStore.Store.Initialize | netebpfext/net_ebpf_ext_sock_addr.c:823-856 | succeeds exactly when all 1000 allocations do, with an empty store; otherwise everything allocated has been freed |
| BlockedContextStore.Store.Uninitialize | netebpfext/net_ebpf_ext_sock_addr.c:768-785 | frees every node and every pool context once, and nothing is left allocated |
| StoreShape.NodeAddedLinked | netebpfext/net_ebpf_ext_sock_addr.c:1087-1099 | putting a new node in front keeps ownership, the threading of list and table and key uniqueness, and adds exactly one table entry, first in the order |
| StoreShape.NodeRemovedLinked | netebpfext/net_ebpf_ext_sock_addr.c:915-923 | the same for removal of a node at any place of the LRU list |
| StoreShape.LowAddedLinked | netebpfext/net_ebpf_ext_sock_addr.c:1045-1060 | the same for a context moved from the pool to the low-memory list |
| StoreShape.LowRecycledLinked | netebpfext/net_ebpf_ext_sock_addr.c:938-946 | the same for a context moved back to the pool |
| ConnectClassify.SameExitKey | netebpfext/net_ebpf_ext_sock_addr.c:1727-1948 | two redirect calls of one connection end on the same key exactly when both or neither end with the converted address |
| ConnectClassify.ExitAddress | netebpfext/net_ebpf_ext_sock_addr.c:1727-1948 | the address at the exit is the connection's own, or its IPv4 form exactly when an IPv4-mapped address was converted and not converted back |
| ConnectClassify.KeyExactly | netebpfext/net_ebpf_ext_sock_addr.c:874-901 | two keys are equal exactly when the endpoints and every field of the addresses are: family, destination, both ports, compartment, and the low 16 bits of the protocol |
| ConnectClassify.MappedExactly | netebpfext/net_ebpf_ext_sock_addr.c:1727-1948 | an address comes back from its IPv4 form exactly when it is IPv4-mapped, and every IPv4 address from its mapped form |
| ConnectClassify.MappedLoopback | netebpfext/net_ebpf_ext_sock_addr.c:1863-1870 | ::ffff:127.0.0.1 is IPv4-mapped and its IPv4 form is 127.0.0.1, with ports, protocol and compartment kept |
| ConnectClassify.OneProgramIsAsked | netebpfext/net_ebpf_ext_sock_addr.c:1670-1711 | of a program attached for IPv4 and one for IPv6, exactly one is asked about an IPv6 connection: the IPv4 one if the address has an IPv4 form |
| ConnectClassify.RejectsExactly | netebpfext/net_ebpf_ext_sock_addr.c:1727-1948 | the callback rejects exactly as the program does when it invokes it; otherwise exactly when it is responsible for the connection and cannot ask the program |
| ConnectProtocol.RedirectClassify | netebpfext/net_ebpf_ext_sock_addr.c:1911-1927 | the callback's effect on the store is the effect of the call in a run: insert on REJECT, remove otherwise, under the key at the exit |
| ConnectProtocol.AuthClassify | netebpfext/net_ebpf_ext_sock_addr.c:1491-1562 | the action and the effect on the store are those of the call in a run |
| ConnectProtocol.Replay | netebpfext/net_ebpf_ext_sock_addr.c:1491-1948 | calling the callbacks one after the other on the linked store gives the contents and every AUTH_CONNECT action that the run determines, for every clock that does not run backwards under the lock; a node may have been stamped before that |
| ConnectProtocol.BlockedExactly | netebpfext/net_ebpf_ext_sock_addr.c:1542-1548 | after any run a key is blocked exactly when the last call that ended on it was a recorded REJECT and every purge since found it fresh, or shielded by a fresh entry that was inserted before it |
| ConnectProtocol.BlockedInSequence | netebpfext/net_ebpf_ext_sock_addr.c:1067-1118 | when no insertion overtakes another one that had its stamp already, a key is blocked exactly when the last call that ended on it was a recorded REJECT and every purge since found it fresh |
| ConnectProtocol.BlockNeedsReject | netebpfext/net_ebpf_ext_sock_addr.c:1542-1548 | AUTH_CONNECT blocks a connection it looks up only if the last call on its key, at either layer, was a REJECT |
| ConnectProtocol.RejectIsEnforced | netebpfext/net_ebpf_ext_sock_addr.c:1521-1548 | a recorded REJECT is enforced by the next lookup of its key if less than 60 seconds pass and the clock is past the first minute |
| ConnectProtocol.RejectsConserved | netebpfext/net_ebpf_ext_sock_addr.c:904-1118 | in every run, the REJECTs of a key are those enforced, one if the key is still blocked, and those lost to a later verdict, a purge or a lack of memory |
| ConnectProtocol.OneBlockPerReject | netebpfext/net_ebpf_ext_sock_addr.c:904-953 | in every run, the blocks of a key, plus one if it is still blocked, are at most its REJECTs |
| ConnectProtocol.OwnPurge | netebpfext/net_ebpf_ext_sock_addr.c:973-1031 | an entry, in the table or the low-memory list, survives the purge of its own insertion exactly when the clock is at least 60000 ms, and less than 60000 ms have passed since its stamp or, for a node, since the stamp of another entry of the table |
| ConnectProtocol.FirstMinuteForgets | netebpfext/net_ebpf_ext_sock_addr.c:976-977 | an insertion during the first minute leaves nothing blocked at all |
| ConnectProtocol.StaleRejectCleared | netebpfext/net_ebpf_ext_sock_addr.c:1911-1927 | any later call that does not reject, however many calls on other keys came before it, clears the REJECT of the same connection exactly when both or neither call ends with the converted address |
| ConnectProtocol.AllowedButStillBlocked | netebpfext/net_ebpf_ext_sock_addr.c:1911-1927 | an IPv4-mapped connection that was rejected and then allowed, and is still blocked |
| ConnectProtocol.ConnectionBlockedExactly | netebpfext/net_ebpf_ext_sock_addr.c:1491-1562 | AUTH_CONNECT blocks a connection that it looks up exactly when the last call of this very connection, in terms of endpoint and address fields, was a recorded REJECT and every purge since spared it |
| ConnectProtocol.OtherConnection | netebpfext/net_ebpf_ext_sock_addr.c:874-901 | a call that ends on another connection, in whatever field it differs, changes nothing for this one, but for a purge that finds its entry stale |
| ConnectProtocol.RejectIsForAddressLeft | netebpfext/net_ebpf_ext_sock_addr.c:1911-1921 | a recorded, surviving REJECT of the program is enforced for a connection exactly when the program left this connection's address, so not when it changed the destination first |
| ConnectProtocol.ActionWithoutLookup | netebpfext/net_ebpf_ext_sock_addr.c:1491-1562 | a reauthorization and a connection of another compartment are permitted, whatever is stored; without a filter context the connection is blocked |
| ConnectProtocol.NoTrace | netebpfext/net_ebpf_ext_sock_addr.c:1491-1562 | a call of AUTH_CONNECT that does not look up consumes nothing: without it, the run ends in the same store |
| ConnectProtocol.MappedRejectEnforced | netebpfext/net_ebpf_ext_sock_addr.c:1727-1948 | a recorded, fresh REJECT of an IPv4-mapped connection is found by the lookup of its IPv4 form exactly when the program was invoked |
| HookLifetimeSafety.StepIsSafe | netebpfext/net_ebpf_ext.h:104-119 | under the invariant, every enabled step finds the clients, filter contexts and callback's own flow contexts that it needs live |
| HookLifetimeSafety.DereferenceRestores | netebpfext/net_ebpf_ext.h:109-119 | the decrement repairs a count that is one too high, also when it is the last one and the context begins to die, still holding its client |
| HookLifetimeSafety.StepKeeps | netebpfext/net_ebpf_ext.c:254-284 | every step keeps: no dangling pointer; reference count = initial reference + filters not reported deleted + flows not freed; rundown count = one for the context until the leave after its last dereference + callbacks inside |
| HookLifetimeSafety.NobodyHolds | netebpfext/net_ebpf_ext_hook_provider.c:165-178 | a client with no rundown reference is not reachable from any context or callback |
| HookLifetimeRuns.RunsAreSafe | netebpfext/net_ebpf_ext_sock_ops.c:371-572 | every run from the empty state touches live clients and filter contexts only, and ends in a state with the invariant and an owner for every flow |
| HookLifetimeRuns.StepOwners | netebpfext/net_ebpf_ext_sock_ops.c:484-572 | every flow context always has exactly one party that will free it: the classify call that made it, WFP, or the flow-delete call |
| HookLifetimeMemory.FreedOncePerAllocation | netebpfext/net_ebpf_ext_hook_provider.c:111-161 | in every run the memory of each client, filter context and flow context has been freed as often as it was allocated, or once less and it is allocated now |
| HookLifetimeMemory.DyingIsFreed | netebpfext/net_ebpf_ext.h:109-119 | from every state a run can reach, whoever dropped the last reference of a filter context can go on to free it |
| HookLifetimeRuns.WaitReleasedExactly | netebpfext/net_ebpf_ext_hook_provider.c:111-161 | the wait of a detach is released exactly when the filter context has lost its last reference, the one who dropped it has left rundown protection, and no callback of the client is in progress |
| HookLifetimeRuns.ClientFreedBeforeContext | netebpfext/net_ebpf_ext.h:109-119 | a run in which the client is freed while its filter context is still allocated, and every step is safe |
| HookLifetimeRuns.NoInvokeAfterDetach | netebpfext/net_ebpf_ext_hook_provider.c:404-440 | after the wait has finished, no run invokes the client's program until the client is attached anew |
| HookLifetimeRuns.ClassifyInvokesExactly | netebpfext/net_ebpf_ext_sock_ops.c:403-459 | a classify call that nothing interrupts and that takes no other exit invokes the program exactly when client_detached is not set and the wait of the detach has not begun |
| HookLifetimeRuns.EntersExactly | netebpfext/net_ebpf_ext_hook_provider.c:165-178 | a callback that tries acquires rundown protection exactly when the wait of the detach has not begun |
| HookLifetimeRuns.NoneEnters | netebpfext/net_ebpf_ext_hook_provider.c:111-178 | from the beginning of the wait on, no step lets a callback of the client acquire rundown protection |
| HookLifetimeRuns.WaitStopsEntry | netebpfext/net_ebpf_ext_hook_provider.c:111-178 | in every run without a new attach, the program is invoked after the beginning of the wait only by callbacks that held rundown protection then |
| HookLifetimeRuns.FlagIsSet | netebpfext/net_ebpf_ext.c:275-284 | the detach does set client_detached on the client's filter context |
| HookLifetimeRuns.FlagStopsCallbacks | netebpfext/net_ebpf_ext.c:275-284 | once client_detached is set on a filter context, every later invocation through it is by a callback that was already past the check |
| FlowListSafety.CleanExactly | netebpfext/net_ebpf_ext_sock_ops.c:464-572 | in every run, no reference to a freed flow context exists, no drain's list is disturbed and every access to flow contexts is safe, if and only if no flow context is freed while a classify call, a list or a drain refers to it, and none is unlinked before it is published or while a drain is about to take it or the one before it off |
| FlowListWindows.WindowsExactly | netebpfext/net_ebpf_ext_sock_ops.c:220-242 | in every run that comes to rest, every party finds its own flow contexts live and in place if and only if no flow is deleted between association and publication or between the drain's taking it off the list and its removal call, and none is unlinked before publication, between the drain's read of it as first or second entry and its write of the links, or as the only entry between the drain's test and its read |
| FlowListLinks.AccessesExactly | netebpfext/net_ebpf_ext_sock_ops.c:220-568 | in every run that comes to rest, all accesses are safe, those to neighbours on a list included, if and only if nothing happens in these windows and nobody inserts after or unlinks next to a flow that a flow-delete call freed without unlinking it |
| FlowListDrains.DrainFromTake | netebpfext/net_ebpf_ext_sock_ops.c:220-242 | in every run, however flow-delete calls unlink from its list: a drain ends after at most four steps per flow context that it took and one more, and then WFP was asked to delete each of them, or a flow-delete call had unlinked it |
| FlowListDrains.DrainGoesOn | netebpfext/net_ebpf_ext_sock_ops.c:228-242 | until then the next step of the drain can be taken |
| FlowListDrains.InvokesExactly | netebpfext/net_ebpf_ext_sock_ops.c:540-560 | a flow-delete call can invoke the program once it has unlinked its flow context and not before; a classify call is not held back |
| FlowListDrains.UnlinkedWhenInvoked | netebpfext/net_ebpf_ext_sock_ops.c:540-568 | in every run that unlinks nothing before its publication, a flow-delete call that invokes the program or frees its flow context has it on no list |
| FlowListRuns.DeleteOvertakesPublication | netebpfext/net_ebpf_ext_sock_ops.c:464-485 | a run in which a flow-delete call unlinks a flow context that has not been inserted |
| FlowListRuns.DeleteOvertakesTest | netebpfext/net_ebpf_ext_sock_ops.c:228-232 | a run in which the drain finds its list not empty, the only flow context on it is unlinked and freed, and the drain takes the list head for a flow context |
| FlowListRuns.DeleteOvertakesDrain | netebpfext/net_ebpf_ext_sock_ops.c:228-242 | a run in which the drain reads a flow context that has been freed |
| FlowListRuns.FreedWhileListed | netebpfext/net_ebpf_ext_sock_ops.c:524-568 | a run in which a flow context is freed after the client was flagged and stays on the list, and a second classify call links its own live flow context to it |
| DetachCompletion.Progress | netebpfext/net_ebpf_ext_sock_ops.c:505-572 | while a detach waits, a step that finishes something in progress is enabled and brings the client's remaining work down |
| DetachCompletion.WaitCanFinish | netebpfext/net_ebpf_ext_hook_provider.c:111-161 | from every state a run can reach in which a detach waits, finishing steps alone lead to its release |
| WfpFilterContext.FilterContext.AddFilters | netebpfext/net_ebpf_ext.c:377-486 | succeeds exactly when the count is not zero, the array can be allocated and the transaction begins, adds every filter and commits; then the count of references is one more than the filters, and all are recorded as added in order; a failure records none |
| WfpFilterContext.FilterContext.NotifyDeleted | netebpfext/net_ebpf_ext.c:750-779 | exactly the filter with this id becomes deleted, one reference is dropped, and the count still equals its holders |
| WfpFilterContext.FilterContext.Cleanup | netebpfext/net_ebpf_ext.c:275-284 | the client is marked detached and the initial reference dropped |
| WfpFilterContext.FilterContext.FreedExactly | netebpfext/net_ebpf_ext.h:109-119 | the context is freed exactly when the cleanup, all filter deletions and all flow deletions have happened, in any order |
| AttachExclusivity.HookProvider.CheckAttachParameter | netebpfext/net_ebpf_ext_hook_provider.c:215-277 | the walk over the list allows exactly a wildcard on an empty list, or a parameter that no client has, without a wildcard client |
| AttachExclusivity.HookProvider.BeginAttach | netebpfext/net_ebpf_ext_sock_addr.c:560-595 | malformed data and conflicting parameters are refused; an admitted client keeps the parameters exclusive, also while it is not yet in the list |
| AttachExclusivity.HookProvider.FinishAttach | netebpfext/net_ebpf_ext_hook_provider.c:369-383 | the client goes to the end of the list, or nowhere on failure; the parameters stay exclusive |
| AttachExclusivity.HookProvider.Detach | netebpfext/net_ebpf_ext_hook_provider.c:428-430 | removes one client, also between another's check and insertion; the parameters stay exclusive |
| AttachExclusivity.ExclusiveExactly | netebpfext/net_ebpf_ext_hook_provider.c:215-277 | a wildcard client is alone and all parameters are distinct, exactly when no compartment is ever matched by two clients |
| AttachExclusivity.MatchesExactly | netebpfext/net_ebpf_ext_sock_addr.c:579-590 | a client matches the compartment that its data names, or every compartment when there is no data or it names none |
| AttachExclusivity.AdmitsByData | netebpfext/net_ebpf_ext_sock_addr.c:571-595 | in terms of the client data: a client for one compartment is admitted exactly when every other client is for one other compartment, a wildcard only to an empty list, malformed data never |
| AttachExclusivity.AdmitsExactly | netebpfext/net_ebpf_ext_sock_addr.c:571-595 | the check admits exactly the clients that keep the list exclusive, but a client that declares no data and yet points to a compartment only when the list is empty |
| MapTemplates.OrderedIsWellFounded | libs/api/ebpf_api.cpp:2403-2412 | a map that was created in template order has a chain of templates that ends |
| MapTemplates.TemplateExactly | libs/api/ebpf_api.cpp:2387-2397 | the template is the first map that the fields name, by inner id or by inner descriptor |
| MapTemplates.NamedByDescriptor | libs/api/ebpf_api.cpp:2387-2397 | a map of maps that names a map by its descriptor alone has it as its template, and its chain ends exactly when that of the template does |
| MapTemplates.NamedById | libs/api/ebpf_api.cpp:2387-2397 | the same for a map that is named by its id |
| MapTemplates.RankedExactly | libs/api/ebpf_api.cpp:2372-2418 | all chains of templates end exactly when the maps can be numbered so that every map of maps has a template with a lower number |
| MapTemplates.SomeReady | libs/api/ebpf_api.cpp:2372-2418 | as long as a map with a finite chain is missing, some missing map waits for no template |
| MapCreation.ObjectLoader.FindTemplate | libs/api/ebpf_api.cpp:2387-2397 | returns the first map whose id is the inner id of map i, or whose descriptor is its inner descriptor; none exactly when there is no such map |
| MapCreation.ObjectLoader.GetNextMapToCreate | libs/api/ebpf_api.cpp:2372-2418 | returns the first missing map that needs no template or whose template exists, or none exactly when there is none; changes nothing but resolved templates |
| MapCreation.ObjectLoader.ValidateMap | libs/api/ebpf_api.cpp:2984-3030 | the recursion ends, and it succeeds exactly when at every level of the templates the kernel's map has the type, key size, value size and maximum entries of the object's map |
| MapCreation.ObjectLoader.CheckReuse | libs/api/ebpf_api.cpp:3032-3066 | a pinned map is reused exactly when it agrees at every level |
| MapCreation.ObjectLoader.CreateMap | libs/api/ebpf_api.cpp:3086-3109 | one round succeeds exactly when the reuse check passes, or the kernel creates the map and its path is free; in either case the invariant of the load is kept |
| MapCreation.ObjectLoader.RollBack | libs/api/ebpf_api.cpp:3125-3133 | removes exactly the pins that this load made, each of which is still there, but for those whose unpin the kernel refuses, and leaves the pins from before |
| MapCreationSteps.RolledBackExactly | libs/api/ebpf_api.cpp:3125-3133 | after a rollback the pins are those from before the load exactly when the kernel refused none of the unpins |
| MapCreation.ObjectLoader.CreateMaps | libs/api/ebpf_api.cpp:3068-3137 | when nothing is refused, succeeds if and only if every chain of templates ends, and otherwise ends with an invalid object; that is, if and only if the maps can be numbered above their templates; on success every map's whole chain agrees with the kernel, every map with a pin path is pinned there, and every map is new or was reused by name; on failure the pins are those from before and those of this load whose unpin the kernel refused |
| MapKernel.ChainStep | libs/api/ebpf_api.cpp:2999-3023 | agreement at all levels is agreement at this level and agreement of the rest of the chain, in both directions |
| MapCreationSteps.MadeKeeps | libs/api/ebpf_api.cpp:3096-3101 | a created map agrees with the kernel at all levels through its template, and everything created before still does |
| MapCreationSteps.PinnedKeeps | libs/api/ebpf_api.cpp:3103-3109 | a new pin belongs to one map of this load and hides no pin from before |
| PinMaps.PinnedObject.MapPin | libs/api/ebpf_api.cpp:1325-1359 | pins exactly when the map is not pinned, has no other path, and the kernel takes the path; a failure changes at most the recorded path |
| PinMaps.PinnedObject.MapUnpin | libs/api/ebpf_api.cpp:1381-1405 | unpins the map's own path, or the given one if it has none; refuses another path and a path that is not pinned; when the kernel refuses, nothing changes |
| PinMaps.PinnedObject.PinAll | libs/api/libbpf_map.cpp:107-151 | pins all maps if each can be pinned after those before it; otherwise exactly the maps before the first that cannot be pinned are unpinned again, but for those whose unpin the kernel refuses, and nothing else changes but recorded paths |
| PinMaps.PinnedObject.RollBack | libs/api/libbpf_map.cpp:146-150 | the walk over the previous maps undoes exactly the pins of this call whose unpin the kernel accepts, and goes on after a refusal |
| PinMaps.RestoredExactly | libs/api/libbpf_map.cpp:146-150 | the pins are those from before the call exactly when the kernel refuses no unpin of the walk |
| PinMaps.AllOrNothing | libs/api/libbpf_map.cpp:107-151 | when the kernel refuses no unpin, a call that fails leaves the pins and the state of all maps as before, but for recorded paths |
| PinMaps.PinnedObject.UnpinAll | libs/api/libbpf_map.cpp:153-190 | unpins maps up to the first that cannot be unpinned, and removes exactly their paths |
| PinMaps.PinnableExactly | libs/api/libbpf_map.cpp:107-151 | all maps can be pinned exactly when each one alone can, no path is taken and no two paths are equal |
| PinMaps.PinnableByName | libs/api/libbpf_map.cpp:107-151 | in terms of directory and names: all maps can be pinned exactly when the names differ, every path is shorter than 256 characters and free, and each map is unpinned and has no other path |
| PinMaps.UnpinUndoesPin | libs/api/libbpf_map.cpp:107-190 | after a successful pin of all maps, unpinning all succeeds and gives the pins from before |
| DefinitionCache.Process.Properties | libs/api/ebpf_api.cpp:406-449 | what the cache answers for a handle is always what the kernel answers about the map behind that handle |
| DefinitionCache.CacheAgrees | libs/api/ebpf_api.cpp:406-449 | the same, for every state with the invariant, which every operation on the cache keeps |
| DefinitionCache.LoadedAgrees | libs/api/ebpf_api.cpp:3032-3118 | after a successful creation of an object's maps, created or reused, the kernel's map behind each new handle has the definition of the object's map |
| DefinitionCache.Process.Load | libs/api/ebpf_api.cpp:3068-3137 | creates the maps and registers every one of them under its handle, with the kernel's definition, if and only if all could be created; otherwise the cache and the objects are as before, and the pins but for those whose unpin the kernel refused |
| DefinitionCache.WithEntriesAt | libs/api/ebpf_api.cpp:3112-3118 | the registration leads each handle to its own map and touches no other entry |
| DefinitionCache.Process.LoadNative | libs/api/ebpf_api.cpp:2042-2090 | maps of a native module get their handles and are not registered |
| DefinitionCache.Process.Unload | libs/api/ebpf_api.cpp:3366-3390 | afterwards every handle of the object's maps is closed and has no entry; nothing else is closed or erased |
| DefinitionCache.Process.Close | libs/api/ebpf_api.cpp:1912-1937 | afterwards every handle of the object's maps is closed and has no entry, the object is gone, and the other objects, the kernel and the pins are as before |
| BatchRequests.CutConcat | libs/api/ebpf_api.cpp:775-784 | cutting a request's data at the entry size gives back exactly the entries that were concatenated |
| BatchRequests.CutAt | libs/execution_context/ebpf_core.c:901-911 | the entries of a request are the slices at multiples of the entry size, and their number is the quotient |
| BatchRequests.Handle | libs/execution_context/ebpf_core.c:868-923 | a request of a wrong length is refused with nothing applied; otherwise its entries are applied in order up to the first that fails |
| BatchRequests.Send | libs/api/ebpf_api.cpp:762-795 | the 16-bit length field does not truncate, so the kernel applies exactly the entries of the request |
| BatchRequests.CopyEntries | libs/api/ebpf_api.cpp:775-784 | the copied data is the concatenation of the next keys and values, each once and in order |
| BatchRequests.UpdateBatch | libs/api/ebpf_api.cpp:730-811 | for entries of any size, whenever one fits a request or a request does not reach the kernel: ends; success means that all single updates were applied in order; a failure leaves a prefix applied; if every request reaches the kernel, state and outcome are those of the single updates |
| BatchRequests.UpdateRound | libs/api/ebpf_api.cpp:762-798 | one pass of the loop, from the bytes of its request to the kernel's answer, is the pass that the results below are about |
| BatchRequests.LargestBatch | libs/api/ebpf_api.cpp:756-764 | a number of entries fits the 16-bit length of a request exactly when it is at most the number the loop uses |
| BatchRequests.LargestEntries | libs/api/ebpf_api.cpp:756-764 | one entry fits an update request up to 65515 bytes of key and value, and a delete request up to 65519 bytes of key |
| BatchRequests.EmptyRound | libs/api/ebpf_api.cpp:762-798 | a pass with no room for an entry is accepted by the kernel and leaves the state and the index as they are |
| BatchRequests.DeleteBatch | libs/api/ebpf_api.cpp:1046-1140 | the same for keys; flags, empty sizes and keys that do not fit a request are refused with nothing applied |
| BatchRequests.UpdateEndsExactly | libs/api/ebpf_api.cpp:756-764 | the loop of batch update ends exactly when one entry fits a request or some request does not reach the kernel |
| BatchRequests.OversizedEntry | libs/api/ebpf_api.cpp:756-764 | a key and a value of 32768 bytes each: after any number of requests that reach the kernel nothing is updated, and the next request is the first again |
| BatchLookup.NextBatch | libs/execution_context/ebpf_maps.c:2800-2884 | the reply holds the entries after the previous key, as many as fit; finding none although one would fit is an error, and so is a previous key that is not in the map |
| BatchLookup.Lookup | libs/api/ebpf_api.cpp:560-620 | fails when the key to start after is not in the map; otherwise succeeds exactly when entries are left and they reach the number requested or end inside a reply; then the output is the next entries in the kernel's order, and the returned key is that of the last one |
| BatchLookup.ResumeWithoutGap | libs/api/ebpf_api.cpp:608-618 | a call that resumes from the returned key continues right after it: the two outputs together have no gap and no overlap |
| BatchLookup.FullReplyThenNothing | libs/api/ebpf_api.cpp:585-589 | when fewer entries are left than requested, the call fails exactly when their number is a multiple of what one reply holds |
| BatchLookup.FullReplyFails | libs/api/ebpf_api.cpp:585-589 | a map with 8190 entries of 8 bytes, which fill one reply: asking for more fails |
| RingBufferSubscription.ObligationConserved | libs/api/ebpf_api.cpp:4191-4312 | exactly one party has to free the subscription, and every step hands this on, except the steps that drop it |
| RingBufferSubscription.Lifetime | libs/api/ebpf_api.cpp:4191-4454 | in every run no step touches a freed subscription, it is freed at most once, and at most one query is out |
| RingBufferSubscription.RecordsInTurn | libs/api/ebpf_api.cpp:4191-4312 | in every run each record that the subscriber is given is the first it has not accepted: none is skipped, and none comes again once it is accepted |
| RingBufferSubscription.NextQueryExactly | libs/api/ebpf_api.cpp:4267-4303 | while subscribed, the next query asks for the first record not accepted, and the kernel takes it except after a cancellation that nobody asked for when a record had been accepted |
| RingBufferSubscription.CallbackGives | libs/api/ebpf_api.cpp:4214-4266 | when a completion comes to take the lock, it has given all of its records, or those up to the first that the subscriber refused; after a cancellation the final call, once; a failed query gives nothing |
| RingBufferSubscription.NothingPostedAfterUnsubscribe | libs/api/ebpf_api.cpp:4267-4303 | once unsubscribed, no run posts a query |
| RingBufferSubscription.FreedExactlyOnce | libs/api/ebpf_api.cpp:4413-4454 | when everything has come to rest, the subscription has been freed once if and only if no step dropped the obligation |
| RingBufferSubscription.RunsEnd | libs/api/ebpf_api.cpp:4191-4312 | after the unsubscribe call every run ends: it has at most as many steps as the work that is left and the records that completions bring |
| RingBufferSubscription.ComesToRest | libs/api/ebpf_api.cpp:4191-4312 | and from every such state a run leads to rest |
| RingBufferSubscription.FreedOnceUnlessFailure | libs/api/ebpf_api.cpp:4191-4454 | if nothing fails except by cancellation, the subscription has been freed exactly once when everything has come to rest |
| RingBufferSubscription.FailureMeetsUnsubscribe | libs/api/ebpf_api.cpp:4207-4213 | the shortest run in which the subscription is not freed |
| NativeLoad.InitializePrograms | libs/api/ebpf_api.cpp:2092-2139 | every handle of the array stays there, is closed, or goes to one program; succeeds exactly when every program to be loaded can take its handle |
| NativeLoad.InitializeMaps | libs/api/ebpf_api.cpp:2042-2090 | the same for maps |
| NativeLoad.InitializeObject | libs/api/ebpf_api.cpp:2141-2187 | on failure of either part no program or map keeps a handle |
| NativeLoad.LoadNative | libs/api/ebpf_api.cpp:3565-3754 | on every exit each handle that was given has been closed once or has one owner; on failure there is no owner; on success the maps own exactly the map handles, the programs those of the programs to be loaded, and the object the module's |

## Left out

- BlockedContextStore.Store.Insert: the two counters are unbounded and do not wrap at 32 bits; the return code, which is not set on one path, is not modelled.
- BlockedContextStore.Store.Purge: a log statement reads a table entry after the entry has been freed (netebpfext/net_ebpf_ext_sock_addr.c:1000); log statements are not modelled.
- ConnectProtocol.Replay: the callbacks run one after the other, with time stamps that may have been read earlier; the system clock does not run backwards.
- HookLifetimeRuns.RunsAreSafe: an attach that fails leaves no trace and is no step; accesses to flow contexts through lists, or after a flow is handed to WFP, are the subject of FlowListSafety and FlowListWindows.
- HookLifetimeSafety.StepKeeps: a flow-delete call drops its reference and frees its flow context in one step, while the code frees it after the dereference.
- FlowListSafety.CleanExactly: the counter of the list, which decides whether a drain takes the list at all, is not modelled; neither are log statements.
- FlowListDrains.DrainFromTake: after an unsafe access, of which WindowsExactly says when it happens, the model goes on as if the access had done no harm.
- DetachCompletion.WaitCanFinish: says that finishing steps lead to the release, not that the scheduler takes them.
- WfpFilterContext.FilterContext.AddFilters: after a failure the caller frees the context without counting down, which is stated in words only.
- MapCreation.ObjectLoader.CreateMaps: the handles closed after a failure, the overwritten inner map id and a kernel that cannot answer a definition query are not modelled; a map pinned by name has a pin path, as the code asserts when it opens the pin.
- DefinitionCache.Process.Properties: operations do not overlap, and descriptors of an object's maps are closed through the object only.
- BatchRequests.UpdateBatch: is stated for calls that come to an end; UpdateEndsExactly says that this condition is exact.
- BatchLookup.Lookup: the map does not change during the call; a missing previous key is an error, as it is for hash tables.
- NativeLoad.LoadNative: the kernel's reply has the expected numbers of handles; the service and its registry keys are not modelled.
- Lookup-and-delete batches and per-CPU values: they depend on padding and deletion order that the batch model does not have.
- Ring buffer records: their layout is not modelled, only their number and order.
- XDP, bind and recv-accept hooks: their callbacks follow the same lifetime protocol and would only add easy members.
- Verifier, ELF and PE parsing, RPC, service control and tracing: foreign calls or finite tables.
- Ownership of program handles after loading, links and attach by name: they repeat the pattern of maps.

/** The process-wide cache of map definitions by handle. Handle numbers are reused by the system once they are closed,
    so an entry that outlives its handle would answer for another map. */
module DefinitionCache {
  import opened Wrappers
  import opened MapTemplates
  import opened MapKernel
  import opened MapCreationSteps
  import opened MapCreation

  type Handle = nat
  type ObjectId = nat

  /** A map of an object; it loses its handle when the object is unloaded. */
  datatype ObjectMap = ObjectMap(definition: Definition, handle: Option<Handle>)

  /** The cache points to a map: an object and a position in it. */
  datatype MapRef = MapRef(owner: ObjectId, index: nat)

  /** The kernel; the open handles and the kernel's map behind each; the objects; the cache. */
  datatype Registry = Registry(kernel: Kernel, open: map<Handle, KernelId>, objects: map<ObjectId, seq<ObjectMap>>,
                               cache: map<Handle, MapRef>)

  ghost predicate Exists(objects: map<ObjectId, seq<ObjectMap>>, r: MapRef) {
    r.owner in objects && r.index < |objects[r.owner]|
  }

  function MapAt(objects: map<ObjectId, seq<ObjectMap>>, r: MapRef): ObjectMap
    requires Exists(objects, r)
  {
    objects[r.owner][r.index]
  }

  ghost predicate HasHandle(objects: map<ObjectId, seq<ObjectMap>>, r: MapRef, h: Handle) {
    Exists(objects, r) && MapAt(objects, r).handle == Some(h)
  }

  /** What a query of the kernel answers. */
  function Query(g: Registry, h: Handle): Option<Definition> {
    if h in g.open && g.open[h] in g.kernel.maps then Some(g.kernel.maps[g.open[h]].definition) else None
  }

  /** Open handles lead to maps of the kernel, and handles of an object's maps are open. */
  ghost predicate HandlesOpen(g: Registry) {
    && (forall h :: h in g.open ==> g.open[h] in g.kernel.maps)
    && (forall r, h :: HasHandle(g.objects, r, h) ==> h in g.open)
  }

  /** No two maps share a handle. */
  ghost predicate OwnHandles(g: Registry) {
    forall r, s, h :: HasHandle(g.objects, r, h) && HasHandle(g.objects, s, h) ==> r == s
  }

  /** Every entry points to an existing map that has the handle of the entry, and the definition of the kernel's map. */
  ghost predicate NoStaleEntry(g: Registry) {
    forall h :: h in g.cache ==>
      HasHandle(g.objects, g.cache[h], h) && Query(g, h) == Some(MapAt(g.objects, g.cache[h]).definition)
  }

  ghost predicate Valid(g: Registry) {
    HandlesOpen(g) && OwnHandles(g) && NoStaleEntry(g)
  }

  /** What the cache answers, or the kernel when there is no entry. */
  function Lookup(g: Registry, h: Handle): Option<Definition>
    requires h in g.cache ==> Exists(g.objects, g.cache[h])
  {
    if h in g.cache then Some(MapAt(g.objects, g.cache[h]).definition) else Query(g, h)
  }

  /** The cache never differs from the kernel. */
  lemma CacheAgrees(g: Registry, h: Handle)
    requires Valid(g)
    ensures h in g.cache ==> Exists(g.objects, g.cache[h])
    ensures Lookup(g, h) == Query(g, h)
  {
  }

  // ---- value-level steps ----

  /** Map i of the object loses its handle: the descriptor is closed and the entry erased. */
  function Released(g: Registry, o: ObjectId, i: nat): Registry
    requires o in g.objects && i < |g.objects[o]|
  {
    match g.objects[o][i].handle
    case None => g
    case Some(h) =>
      Registry(g.kernel, g.open - {h}, g.objects[o := g.objects[o][i := g.objects[o][i].(handle := None)]], g.cache - {h})
  }

  lemma ReleasedKeeps(g: Registry, o: ObjectId, i: nat)
    requires Valid(g) && o in g.objects && i < |g.objects[o]|
    ensures Valid(Released(g, o, i))
  {
    var m := Released(g, o, i);
    if g.objects[o][i].handle.Some? {
      var h := g.objects[o][i].handle.value;
      forall r, k: Handle ensures HasHandle(m.objects, r, k) <==> HasHandle(g.objects, r, k) && r != MapRef(o, i) {
      }
      assert HasHandle(g.objects, MapRef(o, i), h);
      forall r, k: Handle | HasHandle(m.objects, r, k) ensures k in m.open {
        assert k != h;
      }
    }
  }

  ghost predicate NoHandles(maps: seq<ObjectMap>) {
    forall i :: 0 <= i < |maps| ==> maps[i].handle.None?
  }

  lemma ForgottenKeeps(g: Registry, o: ObjectId)
    requires Valid(g) && o in g.objects && NoHandles(g.objects[o])
    ensures Valid(g.(objects := g.objects - {o}))
  {
    var m := g.(objects := g.objects - {o});
    forall r, k: Handle ensures HasHandle(m.objects, r, k) <==> HasHandle(g.objects, r, k) {
    }
  }

  // ---- what a load adds ----

  /** The system hands out handles that are not open, each once. */
  ghost predicate NewHandles(open: map<Handle, KernelId>, handles: seq<Handle>) {
    && (forall i :: 0 <= i < |handles| ==> handles[i] !in open)
    && (forall i, k :: 0 <= i < k < |handles| ==> handles[i] != handles[k])
  }

  /** The handles open, one after the other, to these maps of the kernel. */
  function Opened(open: map<Handle, KernelId>, handles: seq<Handle>, ids: seq<KernelId>): map<Handle, KernelId>
    requires |handles| == |ids|
  {
    if handles == [] then open
    else Opened(open, handles[..|handles| - 1], ids[..|ids| - 1])[handles[|handles| - 1] := ids[|ids| - 1]]
  }

  lemma {:induction false} OpenedAt(open: map<Handle, KernelId>, handles: seq<Handle>, ids: seq<KernelId>)
    requires NewHandles(open, handles) && |handles| == |ids|
    ensures forall h :: h in Opened(open, handles, ids) <==> h in open || h in handles
    ensures forall h :: h in open ==> Opened(open, handles, ids)[h] == open[h]
    ensures forall i :: 0 <= i < |handles| ==> Opened(open, handles, ids)[handles[i]] == ids[i]
  {
    if handles != [] {
      var n := |handles| - 1;
      OpenedAt(open, handles[..n], ids[..n]);
      assert handles == handles[..n] + [handles[n]];
    }
  }

  function ObjectMaps(definitions: seq<Definition>, handles: seq<Handle>): seq<ObjectMap>
    requires |definitions| == |handles|
  {
    seq(|handles|, i requires 0 <= i < |handles| => ObjectMap(definitions[i], Some(handles[i])))
  }

  /** The object with its maps, and the handles to the kernel's maps; nothing is cached yet. */
  function Added(g: Registry, kernel: Kernel, o: ObjectId, definitions: seq<Definition>, handles: seq<Handle>,
                 ids: seq<KernelId>): Registry
    requires |definitions| == |handles| == |ids|
  {
    Registry(kernel, Opened(g.open, handles, ids), g.objects[o := ObjectMaps(definitions, handles)], g.cache)
  }

  lemma AddedKeeps(g: Registry, kernel: Kernel, o: ObjectId, definitions: seq<Definition>, handles: seq<Handle>,
                   ids: seq<KernelId>)
    requires Valid(g) && o !in g.objects && Grows(g.kernel, kernel)
    requires NewHandles(g.open, handles) && |definitions| == |handles| == |ids|
    requires forall i :: 0 <= i < |ids| ==> ids[i] in kernel.maps
    ensures Valid(Added(g, kernel, o, definitions, handles, ids))
    ensures forall i :: 0 <= i < |handles| ==> handles[i] !in g.cache
    ensures forall i :: 0 <= i < |handles| ==>
      Query(Added(g, kernel, o, definitions, handles, ids), handles[i]) == Some(kernel.maps[ids[i]].definition)
  {
    var m := Added(g, kernel, o, definitions, handles, ids);
    OpenedAt(g.open, handles, ids);
    hide Opened;
    forall r, k: Handle ensures HasHandle(m.objects, r, k) <==>
      HasHandle(g.objects, r, k) || (r.owner == o && r.index < |handles| && handles[r.index] == k) {
    }
  }

  ghost predicate Entry(g: Registry, o: ObjectId, i: nat, h: Handle) {
    HasHandle(g.objects, MapRef(o, i), h) && Query(g, h) == Some(g.objects[o][i].definition)
  }

  lemma InsertedKeeps(g: Registry, o: ObjectId, i: nat, h: Handle)
    requires Valid(g) && Entry(g, o, i, h)
    ensures Valid(g.(cache := g.cache[h := MapRef(o, i)]))
  {
  }

  function Definitions(specs: seq<MapSpec>): seq<Definition> {
    seq(|specs|, i requires 0 <= i < |specs| => specs[i].definition)
  }

  function KernelMaps(states: seq<MapState>): seq<KernelId>
    requires forall i :: 0 <= i < |states| ==> states[i].handle.Some?
  {
    seq(|states|, i requires 0 <= i < |states| => states[i].handle.value)
  }

  /** After a successful creation of an object's maps, created or reused, each map can be an entry of the cache: the
      kernel's map behind its handle has its definition. */
  lemma LoadedAgrees(g: Registry, o: ObjectId, specs: seq<MapSpec>, l: Load, handles: seq<Handle>)
    requires Valid(g) && o !in g.objects && Loaded(specs, g.kernel, l)
    requires NewHandles(g.open, handles) && |handles| == |specs|
    ensures var m := Added(g, l.kernel, o, Definitions(specs), handles, KernelMaps(l.states));
            && Valid(m)
            && (forall i :: 0 <= i < |handles| ==> Entry(m, o, i, handles[i]) && handles[i] !in g.cache)
  {
    AddedKeeps(g, l.kernel, o, Definitions(specs), handles, KernelMaps(l.states));
  }

  /** The entries of an object's first n maps have been added. */
  function WithEntries(cache: map<Handle, MapRef>, o: ObjectId, handles: seq<Handle>, n: nat): map<Handle, MapRef>
    requires n <= |handles|
  {
    if n == 0 then cache else WithEntries(cache, o, handles, n - 1)[handles[n - 1] := MapRef(o, n - 1)]
  }

  /** The old entries stay, and each handle leads to its map. */
  lemma {:induction false} WithEntriesAt(open: map<Handle, KernelId>, cache: map<Handle, MapRef>, o: ObjectId,
                                         handles: seq<Handle>, n: nat)
    requires n <= |handles| && NewHandles(open, handles) && cache.Keys <= open.Keys
    ensures forall h :: h in WithEntries(cache, o, handles, n) <==> h in cache || h in handles[..n]
    ensures forall h :: h in cache ==> WithEntries(cache, o, handles, n)[h] == cache[h]
    ensures forall i :: 0 <= i < n ==> WithEntries(cache, o, handles, n)[handles[i]] == MapRef(o, i)
  {
    if n > 0 {
      WithEntriesAt(open, cache, o, handles, n - 1);
      assert handles[..n] == handles[..n - 1] + [handles[n - 1]];
    }
  }

  class Process {
    var g: Registry

    constructor (kernel: Kernel)
      ensures g == Registry(kernel, map[], map[], map[]) && Valid(g)
    {
      g := Registry(kernel, map[], map[], map[]);
    }

    /** The properties of a map behind a handle, through the cache. */
    method Properties(h: Handle) returns (definition: Option<Definition>)
      requires Valid(g)
      ensures definition == Query(g, h)
    {
      CacheAgrees(g, h);
      definition := if h in g.cache then Some(MapAt(g.objects, g.cache[h]).definition) else Query(g, h);
    }

    /** Loads an object: its maps are created in the kernel, and registered only when all of them were. */
    method Load(o: ObjectId, specs: seq<MapSpec>, answers: Answers, handles: seq<Handle>) returns (outcome: Outcome)
      requires Valid(g) && o !in g.objects
      requires ValidAnswers(specs, g.kernel, answers) && NewHandles(g.open, handles) && |handles| == |specs|
      requires forall i :: 0 <= i < |specs| && specs[i].pinByName ==> specs[i].pinPath.Some?
      modifies this
      ensures Valid(g) && Grows(old(g).kernel, g.kernel)
      ensures outcome.Created? ==> exists l ::
        && Loaded(specs, old(g).kernel, l)
        && g == Added(old(g), l.kernel, o, Definitions(specs), handles, KernelMaps(l.states))
                .(cache := WithEntries(old(g).cache, o, handles, |handles|))
      ensures !outcome.Created? ==> g == old(g).(kernel := g.kernel)
      ensures !outcome.Created? ==> exists made: seq<MapState> ::
        && |made| == |specs| && Pins(specs, old(g).kernel.pins, Undone(specs, made, answers.unpins, |specs|), g.kernel.pins)
      ensures Agreeable(specs, old(g).kernel, answers) ==>
        outcome == if AllWellFounded(specs) then Outcome.Created else InvalidObject
    {
      hide Agreeable, AllWellFounded, Loaded, Pins;
      var loader := new ObjectLoader(specs, g.kernel);
      ghost var made;
      outcome, made := loader.CreateMaps(answers);
      if !outcome.Created? {
        g := g.(kernel := loader.kernel);
        return;
      }
      ghost var l := MapKernel.Load(loader.states, loader.kernel);
      LoadedAgrees(g, o, specs, l, handles);
      AllHaveHandles(specs, g.kernel, l);
      g := Added(g, loader.kernel, o, Definitions(specs), handles, KernelMaps(loader.states));
      Register(o, handles);
    }

    /** The loop that inserts an entry for each map of an object; an entry that is already there would stay. */
    method Register(o: ObjectId, handles: seq<Handle>)
      requires Valid(g)
      requires forall i :: 0 <= i < |handles| ==> Entry(g, o, i, handles[i]) && handles[i] !in g.cache
      modifies this
      ensures Valid(g) && g == old(g).(cache := WithEntries(old(g).cache, o, handles, |handles|))
    {
      for i := 0 to |handles|
        invariant Valid(g) && g == old(g).(cache := WithEntries(old(g).cache, o, handles, i))
        invariant forall k :: i <= k < |handles| ==> handles[k] !in g.cache
      {
        DistinctHandles(g, o, handles);
        assert Entry(g, o, i, handles[i]);
        if handles[i] !in g.cache {
          InsertedKeeps(g, o, i, handles[i]);
          g := g.(cache := g.cache[handles[i] := MapRef(o, i)]);
        }
      }
    }

    /** Loads a native module: the kernel has created its maps, and none is registered. That the kernel's maps have
        the definitions read from the file is only asserted, and nothing here depends on it. */
    method LoadNative(o: ObjectId, definitions: seq<Definition>, handles: seq<Handle>, ids: seq<KernelId>)
      requires Valid(g) && o !in g.objects && NewHandles(g.open, handles) && |definitions| == |handles| == |ids|
      requires forall i :: 0 <= i < |ids| ==> ids[i] in g.kernel.maps
      modifies this
      ensures Valid(g) && g == Added(old(g), old(g).kernel, o, definitions, handles, ids)
    {
      AddedKeeps(g, g.kernel, o, definitions, handles, ids);
      g := Added(g, g.kernel, o, definitions, handles, ids);
    }

    /** Closes the handle of one map and erases its entry. */
    method Release(o: ObjectId, i: nat)
      requires Valid(g) && o in g.objects && i < |g.objects[o]|
      modifies this
      ensures Valid(g) && g == Released(old(g), o, i)
    {
      ReleasedKeeps(g, o, i);
      if g.objects[o][i].handle.Some? {
        var h := g.objects[o][i].handle.value;
        g := g.(open := g.open - {h});
        g := g.(cache := g.cache - {h});
        g := g.(objects := g.objects[o := g.objects[o][i := g.objects[o][i].(handle := None)]]);
      }
    }

    /** Unloading an object closes the handles of its maps, and of no other. */
    method Unload(o: ObjectId)
      requires Valid(g) && o in g.objects
      modifies this
      ensures Valid(g) && g.objects.Keys == old(g).objects.Keys && NoHandles(g.objects[o]) && g.kernel == old(g).kernel
      ensures forall h :: OwnedBy(old(g), o, h) ==> h !in g.open && h !in g.cache
      ensures g.open.Keys <= old(g).open.Keys && g.cache.Keys <= old(g).cache.Keys
      ensures |g.objects[o]| == |old(g).objects[o]|
      ensures forall k :: k in g.objects && k != o ==> g.objects[k] == old(g).objects[k]
      ensures forall h :: h in old(g).open && !OwnedBy(old(g), o, h) ==> h in g.open && g.open[h] == old(g).open[h]
      ensures forall h :: h in old(g).cache && !OwnedBy(old(g), o, h) ==> h in g.cache && g.cache[h] == old(g).cache[h]
    {
      hide Valid, OwnedBy, ClosedUpTo;
      NoneClosed(old(g), o);
      for i := 0 to |g.objects[o]|
        invariant Valid(g) && g.objects.Keys == old(g).objects.Keys && |g.objects[o]| == |old(g).objects[o]|
        invariant forall k :: 0 <= k < i ==> g.objects[o][k].handle.None?
        invariant forall k :: i <= k < |g.objects[o]| ==> g.objects[o][k] == old(g).objects[o][k]
        invariant g.kernel == old(g).kernel && g.open.Keys <= old(g).open.Keys && g.cache.Keys <= old(g).cache.Keys
        invariant ClosedUpTo(old(g), o, i, g)
        invariant forall k :: k in g.objects && k != o ==> g.objects[k] == old(g).objects[k]
        invariant forall h :: h in old(g).open && !OwnedBy(old(g), o, h) ==> h in g.open && g.open[h] == old(g).open[h]
        invariant forall h :: h in old(g).cache && !OwnedBy(old(g), o, h) ==> h in g.cache && g.cache[h] == old(g).cache[h]
      {
        OwnedByIt(old(g), o, i);
        ClosedNext(old(g), o, i, g);
        Release(o, i);
      }
      AllClosed(old(g), o, g);
    }

    /** Closing an object frees its maps; no entry points to them afterwards. */
    method Close(o: ObjectId)
      requires Valid(g) && o in g.objects
      modifies this
      ensures Valid(g) && g.objects.Keys == old(g).objects.Keys - {o} && g.kernel == old(g).kernel
      ensures forall k :: k in g.objects ==> g.objects[k] == old(g).objects[k]
      ensures forall h :: OwnedBy(old(g), o, h) ==> h !in g.open && h !in g.cache
      ensures g.open.Keys <= old(g).open.Keys && g.cache.Keys <= old(g).cache.Keys
      ensures forall h :: h in old(g).open && !OwnedBy(old(g), o, h) ==> h in g.open && g.open[h] == old(g).open[h]
      ensures forall h :: h in old(g).cache && !OwnedBy(old(g), o, h) ==> h in g.cache && g.cache[h] == old(g).cache[h]
    {
      Unload(o);
      ForgottenKeeps(g, o);
      g := g.(objects := g.objects - {o});
    }

    /** Another part of the process opens or closes a handle that belongs to no object. */
    method OpenElsewhere(h: Handle, id: KernelId)
      requires Valid(g) && h !in g.open && id in g.kernel.maps
      modifies this
      ensures Valid(g) && g == old(g).(open := old(g).open[h := id])
    {
      g := g.(open := g.open[h := id]);
    }

    method CloseElsewhere(h: Handle)
      requires Valid(g) && forall r :: !HasHandle(g.objects, r, h)
      modifies this
      ensures Valid(g) && g == old(g).(open := old(g).open - {h})
    {
      g := g.(open := g.open - {h});
    }

    /** The kernel's maps and pins change; a map stays as long as a handle to it is open. */
    method KernelMoves(kernel: Kernel)
      requires Valid(g)
      requires forall h :: h in g.open ==> g.open[h] in kernel.maps && kernel.maps[g.open[h]] == g.kernel.maps[g.open[h]]
      modifies this
      ensures Valid(g) && g == old(g).(kernel := kernel)
    {
      g := g.(kernel := kernel);
    }
  }

  lemma AllHaveHandles(specs: seq<MapSpec>, before: Kernel, l: Load)
    requires Loaded(specs, before, l)
    ensures |l.states| == |specs| && forall i :: 0 <= i < |l.states| ==> l.states[i].handle.Some?
    ensures Grows(before, l.kernel)
  {
  }

  lemma DistinctHandles(g: Registry, o: ObjectId, handles: seq<Handle>)
    requires Valid(g) && forall i :: 0 <= i < |handles| ==> HasHandle(g.objects, MapRef(o, i), handles[i])
    ensures forall i, k :: 0 <= i < k < |handles| ==> handles[i] != handles[k]
  {
    forall i, k | 0 <= i < k < |handles| ensures handles[i] != handles[k] {
      assert HasHandle(g.objects, MapRef(o, i), handles[i]) && HasHandle(g.objects, MapRef(o, k), handles[k]);
    }
  }

  ghost predicate OwnedBy(g: Registry, o: ObjectId, h: Handle) {
    exists i: nat :: HasHandle(g.objects, MapRef(o, i), h)
  }

  /** The handles of the object's first n maps are closed and have no entry. */
  ghost predicate ClosedUpTo(before: Registry, o: ObjectId, n: nat, g: Registry) {
    forall i, h :: 0 <= i < n && HasHandle(before.objects, MapRef(o, i), h) ==> h !in g.open && h !in g.cache
  }

  lemma NoneClosed(g: Registry, o: ObjectId)
    ensures ClosedUpTo(g, o, 0, g)
  {
  }

  lemma ClosedNext(before: Registry, o: ObjectId, i: nat, g: Registry)
    requires o in before.objects && o in g.objects && i < |before.objects[o]| == |g.objects[o]|
    requires g.objects[o][i] == before.objects[o][i] && ClosedUpTo(before, o, i, g)
    ensures ClosedUpTo(before, o, i + 1, Released(g, o, i))
  {
  }

  lemma AllClosed(before: Registry, o: ObjectId, g: Registry)
    requires o in before.objects && ClosedUpTo(before, o, |before.objects[o]|, g)
    ensures forall h :: OwnedBy(before, o, h) ==> h !in g.open && h !in g.cache
  {
  }

  lemma OwnedByIt(g: Registry, o: ObjectId, i: nat)
    requires o in g.objects && i < |g.objects[o]|
    ensures g.objects[o][i].handle.Some? ==> OwnedBy(g, o, g.objects[o][i].handle.value)
  {
    if g.objects[o][i].handle.Some? {
      assert HasHandle(g.objects, MapRef(o, i), g.objects[o][i].handle.value);
    }
  }
}

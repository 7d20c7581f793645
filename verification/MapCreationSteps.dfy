/** What each step of an object load does to the loader's and the kernel's state, and what it keeps. */
module MapCreationSteps {
  import opened Wrappers
  import opened MapTemplates
  import opened MapKernel

  // ---- the invariant of a load in progress ----

  ghost predicate Shaped(specs: seq<MapSpec>, states: seq<MapState>) {
    && |states| == |specs|
    && (forall i :: 0 <= i < |states| && states[i].inner.Some? ==> IsTemplate(specs, i, states[i].inner.value))
    && (forall i :: 0 <= i < |states| && states[i].handle.Some? && specs[i].IsMapOfMaps() ==> states[i].inner.Some?)
    && (forall i :: 0 <= i < |states| && (states[i].pinned || states[i].reused) ==> states[i].handle.Some?)
  }

  /** `order` lists the maps that have a handle, in the order in which they got it. */
  ghost predicate Ordered(specs: seq<MapSpec>, states: seq<MapState>, order: seq<nat>) {
    && TemplatesFirst(specs, order)
    && (forall i :: 0 <= i < |states| ==> (states[i].handle.Some? <==> i in order))
    && |Members(order)| == |order|
  }

  /** Every map with a handle agrees with the kernel's map, at every level of its templates. */
  ghost predicate Agreed(specs: seq<MapSpec>, l: Load) {
    forall i :: 0 <= i < |l.states| && i < |specs| && l.states[i].handle.Some? ==>
      Agrees(specs, l.kernel, i, l.states[i].handle.value)
  }

  /** Map i was pinned at path p by this load. */
  ghost predicate PinnedHere(specs: seq<MapSpec>, states: seq<MapState>, i: nat, p: string) {
    && i < |states| && i < |specs| && states[i].pinned && !states[i].reused && specs[i].pinPath == Some(p)
  }

  /** The pins are those before the load and those of maps that this load pinned, one map per path. */
  ghost predicate Pins(specs: seq<MapSpec>, before: map<string, KernelId>, states: seq<MapState>,
                       pins: map<string, KernelId>) {
    && (forall p :: p in before ==> p in pins && pins[p] == before[p])
    && (forall p :: p in pins && p !in before ==> exists i: nat :: PinnedHere(specs, states, i, p))
    && (forall i: nat, p :: PinnedHere(specs, states, i, p) ==>
          p !in before && p in pins && states[i].handle == Some(pins[p]))
    && (forall i: nat, k: nat, p :: PinnedHere(specs, states, i, p) && PinnedHere(specs, states, k, p) ==> i == k)
  }

  ghost predicate Sound(specs: seq<MapSpec>, before: Kernel, l: Load, order: seq<nat>) {
    && Shaped(specs, l.states) && Ordered(specs, l.states, order) && Agreed(specs, l)
    && Pins(specs, before.pins, l.states, l.kernel.pins) && Grows(before, l.kernel)
  }

  /** Every map with a handle is pinned at its path, if it has one; and it is a new map of the kernel, or was reused
      because it is pinned by name. */
  ghost predicate Placed(specs: seq<MapSpec>, before: Kernel, l: Load) {
    && |l.states| == |specs|
    && forall i :: 0 <= i < |specs| && l.states[i].handle.Some? ==>
         && (specs[i].pinPath.Some? ==>
               specs[i].pinPath.value in l.kernel.pins && l.states[i].handle == Some(l.kernel.pins[specs[i].pinPath.value]))
         && (if l.states[i].reused then specs[i].pinByName && specs[i].pinPath.Some?
             else l.states[i].handle.value !in before.maps)
  }

  // ---- the steps ----

  function Resolved(states: seq<MapState>, i: nat, j: nat): seq<MapState>
    requires i < |states|
  {
    states[i := states[i].(inner := Some(j))]
  }

  function Reused(l: Load, i: nat, id: KernelId): Load
    requires i < |l.states|
  {
    l.(states := l.states[i := l.states[i].(handle := Some(id), reused := true, pinned := true)])
  }

  function InnerHandle(states: seq<MapState>, i: nat): Option<KernelId>
    requires i < |states|
  {
    match states[i].inner
    case None => None
    case Some(j) => if j < |states| then states[j].handle else None
  }

  function Made(l: Load, definition: Definition, i: nat, id: KernelId): Load
    requires i < |l.states|
  {
    Load(l.states[i := l.states[i].(handle := Some(id))],
         l.kernel.(maps := l.kernel.maps[id := KernelMap(definition, InnerHandle(l.states, i))]))
  }

  function Pinned(l: Load, i: nat, path: string): Load
    requires i < |l.states| && l.states[i].handle.Some?
  {
    Load(l.states[i := l.states[i].(pinned := true)],
         l.kernel.(pins := l.kernel.pins[path := l.states[i].handle.value]))
  }

  // ---- a map gets its handle ----

  lemma HandleAdded(specs: seq<MapSpec>, states: seq<MapState>, after: seq<MapState>, order: seq<nat>, i: nat)
    requires Ordered(specs, states, order) && |states| == |specs| && i < |states| && states[i].handle.None?
    requires Ready(specs, Members(order), i)
    requires |after| == |states| && after[i].handle.Some?
    requires forall k :: 0 <= k < |states| && k != i ==> after[k] == states[k]
    ensures Ordered(specs, after, order + [i])
  {
    ExtendsOrder(specs, order, i);
    assert i !in Members(order);
    forall k | 0 <= k < |after| ensures after[k].handle.Some? <==> k in order + [i] {
      assert k != i ==> after[k] == states[k];
    }
  }

  lemma SamePins(specs: seq<MapSpec>, before: map<string, KernelId>, states: seq<MapState>, after: seq<MapState>,
                 pins: map<string, KernelId>, i: nat)
    requires Pins(specs, before, states, pins) && i < |states| && |after| == |states|
    requires forall k :: 0 <= k < |states| && k != i ==> after[k] == states[k]
    requires !states[i].pinned && (!after[i].pinned || after[i].reused)
    ensures Pins(specs, before, after, pins)
  {
    assert forall k: nat, p :: PinnedHere(specs, after, k, p) <==> PinnedHere(specs, states, k, p);
    forall p | p in pins && p !in before ensures exists k: nat :: PinnedHere(specs, after, k, p) {
      var k: nat :| PinnedHere(specs, states, k, p);
      assert PinnedHere(specs, after, k, p);
    }
  }

  lemma ReusedAgreed(specs: seq<MapSpec>, l: Load, i: nat, id: KernelId)
    requires Agreed(specs, l) && |l.states| == |specs| && i < |l.states| && Agrees(specs, l.kernel, i, id)
    ensures Agreed(specs, Reused(l, i, id))
  {
  }

  /** A reused map is a map with a handle that this load does not unpin. */
  lemma ReusedKeeps(specs: seq<MapSpec>, before: Kernel, l: Load, order: seq<nat>, i: nat, id: KernelId)
    requires Sound(specs, before, l, order) && i < |specs| && l.states[i].handle.None?
    requires Ready(specs, Members(order), i) && Agrees(specs, l.kernel, i, id)
    requires specs[i].IsMapOfMaps() ==> l.states[i].inner.Some?
    ensures Sound(specs, before, Reused(l, i, id), order + [i])
  {
    var r := Reused(l, i, id);
    HandleAdded(specs, l.states, r.states, order, i);
    SamePins(specs, before.pins, l.states, r.states, l.kernel.pins, i);
    ReusedAgreed(specs, l, i, id);
  }

  /** The new kernel map agrees with its map: its own level by construction, the rest through its template. */
  lemma MadeAgrees(specs: seq<MapSpec>, l: Load, i: nat, id: KernelId, n: nat)
    requires Shaped(specs, l.states) && Agreed(specs, l) && i < |specs| && id !in l.kernel.maps
    requires specs[i].IsMapOfMaps() ==> InnerHandle(l.states, i).Some?
    requires ReachesLeaf(specs, i, n)
    ensures ChainMatches(specs, Made(l, specs[i].definition, i, id).kernel, i, id, n)
  {
    var r := Made(l, specs[i].definition, i, id).kernel;
    assert Grows(l.kernel, r);
    if n == 0 {
      assert LevelMatches(specs, r, i, id, 0);
    } else {
      var j: nat :| IsTemplate(specs, i, j) && ReachesLeaf(specs, j, n - 1);
      TemplateIsUnique(specs, i, j, l.states[i].inner.value);
      var inner := l.states[j].handle.value;
      assert ChainMatches(specs, l.kernel, j, inner, n - 1);
      ChainFrame(specs, l.kernel, r, j, inner, n - 1);
      ChainStep(specs, r, i, id, n, j);
    }
  }

  lemma MadeAgreed(specs: seq<MapSpec>, l: Load, i: nat, id: KernelId)
    requires Shaped(specs, l.states) && Agreed(specs, l) && i < |specs| && id !in l.kernel.maps
    requires specs[i].IsMapOfMaps() ==> InnerHandle(l.states, i).Some?
    ensures Agreed(specs, Made(l, specs[i].definition, i, id))
  {
    var r := Made(l, specs[i].definition, i, id);
    assert Grows(l.kernel, r.kernel);
    forall k | 0 <= k < |r.states| && r.states[k].handle.Some? ensures Agrees(specs, r.kernel, k, r.states[k].handle.value) {
      if k == i {
        forall n | ReachesLeaf(specs, i, n) ensures ChainMatches(specs, r.kernel, i, id, n) {
          MadeAgrees(specs, l, i, id, n);
        }
      } else {
        AgreesFrame(specs, l.kernel, r.kernel, k, l.states[k].handle.value);
      }
    }
  }

  lemma MadeShaped(specs: seq<MapSpec>, l: Load, i: nat, id: KernelId)
    requires Shaped(specs, l.states) && i < |specs| && (specs[i].IsMapOfMaps() ==> InnerHandle(l.states, i).Some?)
    ensures Shaped(specs, Made(l, specs[i].definition, i, id).states)
  {
  }

  lemma MadeKeeps(specs: seq<MapSpec>, before: Kernel, l: Load, order: seq<nat>, i: nat, id: KernelId)
    requires Sound(specs, before, l, order) && i < |specs| && l.states[i].handle.None? && id !in l.kernel.maps
    requires Ready(specs, Members(order), i) && (specs[i].IsMapOfMaps() ==> InnerHandle(l.states, i).Some?)
    ensures Sound(specs, before, Made(l, specs[i].definition, i, id), order + [i])
  {
    var r := Made(l, specs[i].definition, i, id);
    MadeAgreed(specs, l, i, id);
    MadeShaped(specs, l, i, id);
    hide Agreed, Agrees;
    HandleAdded(specs, l.states, r.states, order, i);
    hide Ordered;
    SamePins(specs, before.pins, l.states, r.states, l.kernel.pins, i);
  }

  // ---- a map is pinned ----

  lemma PinnedPins(specs: seq<MapSpec>, before: map<string, KernelId>, l: Load, i: nat, path: string)
    requires Pins(specs, before, l.states, l.kernel.pins) && |l.states| == |specs| && i < |specs|
    requires l.states[i].handle.Some? && !l.states[i].pinned && !l.states[i].reused
    requires specs[i].pinPath == Some(path) && path !in l.kernel.pins
    ensures Pins(specs, before, Pinned(l, i, path).states, Pinned(l, i, path).kernel.pins)
  {
    var r := Pinned(l, i, path);
    assert forall k: nat, p :: PinnedHere(specs, r.states, k, p) <==> (PinnedHere(specs, l.states, k, p) || (k == i && p == path));
    forall p | p in r.kernel.pins && p !in before ensures exists k: nat :: PinnedHere(specs, r.states, k, p) {
      if p == path {
        assert PinnedHere(specs, r.states, i, path);
      } else {
        var k: nat :| PinnedHere(specs, l.states, k, p);
        assert PinnedHere(specs, r.states, k, p);
      }
    }
  }

  lemma PinnedKeeps(specs: seq<MapSpec>, before: Kernel, l: Load, order: seq<nat>, i: nat, path: string)
    requires Sound(specs, before, l, order) && i < |specs|
    requires l.states[i].handle.Some? && !l.states[i].pinned && !l.states[i].reused
    requires specs[i].pinPath == Some(path) && path !in l.kernel.pins
    ensures Sound(specs, before, Pinned(l, i, path), order)
  {
    var r := Pinned(l, i, path);
    PinnedPins(specs, before.pins, l, i, path);
    assert Agreed(specs, r) by {
      forall k | 0 <= k < |r.states| && r.states[k].handle.Some?
        ensures Agrees(specs, r.kernel, k, r.states[k].handle.value)
      {
        AgreesFrame(specs, l.kernel, r.kernel, k, l.states[k].handle.value);
      }
    }
  }

  // ---- every map ends where it belongs ----

  lemma ReusedPlaced(specs: seq<MapSpec>, before: Kernel, l: Load, i: nat)
    requires |l.states| == |specs| && i < |specs| && specs[i].pinByName
    requires specs[i].pinPath.Some? && specs[i].pinPath.value in l.kernel.pins
    ensures Placed(specs, before, l) ==> Placed(specs, before, Reused(l, i, l.kernel.pins[specs[i].pinPath.value]))
  {
  }

  lemma MadePlaced(specs: seq<MapSpec>, before: Kernel, l: Load, i: nat, id: KernelId)
    requires |l.states| == |specs| && i < |specs| && !l.states[i].reused && Grows(before, l.kernel) && id !in l.kernel.maps
    ensures specs[i].pinPath.None? && Placed(specs, before, l) ==>
      Placed(specs, before, Made(l, specs[i].definition, i, id))
    ensures specs[i].pinPath.Some? && specs[i].pinPath.value !in l.kernel.pins && Placed(specs, before, l) ==>
      Placed(specs, before, Pinned(Made(l, specs[i].definition, i, id), i, specs[i].pinPath.value))
  {
  }

  // ---- rollback ----

  function Unpinned(l: Load, i: nat, path: string): Load
    requires i < |l.states|
  {
    Load(l.states[i := l.states[i].(pinned := false)], l.kernel.(pins := l.kernel.pins - {path}))
  }

  lemma UnpinnedPins(specs: seq<MapSpec>, before: map<string, KernelId>, l: Load, i: nat, path: string)
    requires Pins(specs, before, l.states, l.kernel.pins) && PinnedHere(specs, l.states, i, path)
    ensures Pins(specs, before, Unpinned(l, i, path).states, Unpinned(l, i, path).kernel.pins)
    ensures forall k: nat, p ::
              PinnedHere(specs, Unpinned(l, i, path).states, k, p) ==> PinnedHere(specs, l.states, k, p) && k != i
  {
    var r := Unpinned(l, i, path);
    assert forall k: nat, p :: PinnedHere(specs, r.states, k, p) <==> (PinnedHere(specs, l.states, k, p) && k != i);
    forall p | p in r.kernel.pins && p !in before ensures exists k: nat :: PinnedHere(specs, r.states, k, p) {
      var k: nat :| PinnedHere(specs, l.states, k, p);
      assert PinnedHere(specs, r.states, k, p);
    }
  }

  /** The first n maps that were pinned here are no longer, where the kernel takes the unpin. */
  function Undone(specs: seq<MapSpec>, states: seq<MapState>, unpins: seq<bool>, n: nat): seq<MapState>
    requires n <= |states| == |specs| == |unpins|
  {
    seq(|states|, i requires 0 <= i < |states| =>
      if i < n && specs[i].pinPath.Some? && states[i].pinned && !states[i].reused && unpins[i]
      then states[i].(pinned := false) else states[i])
  }

  /** After a rollback the pins are those from before exactly when the kernel refused none of the unpins. */
  lemma RolledBackExactly(specs: seq<MapSpec>, before: map<string, KernelId>, made: seq<MapState>, unpins: seq<bool>,
                          pins: map<string, KernelId>)
    requires |made| == |specs| == |unpins| && Pins(specs, before, Undone(specs, made, unpins, |specs|), pins)
    ensures pins == before <==> forall i: nat, p :: PinnedHere(specs, made, i, p) ==> unpins[i]
  {
    var after := Undone(specs, made, unpins, |specs|);
    assert forall i: nat, p :: PinnedHere(specs, after, i, p) <==> PinnedHere(specs, made, i, p) && !unpins[i];
    if i: nat, p :| PinnedHere(specs, made, i, p) && !unpins[i] {
      assert PinnedHere(specs, after, i, p);
    }
  }

  // ---- counting ----

  lemma {:induction false} BelowSize(created: set<nat>, n: nat)
    requires forall i :: i in created ==> i < n
    ensures |created| <= n
    ensures |created| == n <==> forall i :: 0 <= i < n ==> i in created
    decreases n
  {
    if n == 0 {
      assert created == {};
    } else {
      BelowSize(created - {n - 1}, n - 1);
      if n - 1 in created {
        assert forall i :: 0 <= i < n - 1 ==> (i in created - {n - 1} <==> i in created);
      } else {
        assert created - {n - 1} == created;
      }
    }
  }

  /** All maps have a handle exactly when the order is as long as the list of maps. */
  lemma OrderComplete(specs: seq<MapSpec>, states: seq<MapState>, order: seq<nat>)
    requires Ordered(specs, states, order) && |states| == |specs|
    ensures |order| <= |specs|
    ensures |order| == |specs| <==> forall i :: 0 <= i < |specs| ==> i in order
  {
    forall i | i in Members(order) ensures i < |specs| {
      var p :| 0 <= p < |order| && order[p] == i;
    }
    BelowSize(Members(order), |specs|);
    assert forall i: nat :: i in order <==> i in Members(order);
  }

  lemma ReadyMore(specs: seq<MapSpec>, created: set<nat>, more: set<nat>, i: nat)
    requires i < |specs| && Ready(specs, created, i) && created <= more
    ensures Ready(specs, more, i)
  {
  }

  /** A map with a handle was ready when it got it. */
  lemma CreatedReady(specs: seq<MapSpec>, states: seq<MapState>, order: seq<nat>, i: nat)
    requires Ordered(specs, states, order) && |states| == |specs| && i < |specs| && states[i].handle.Some?
    ensures Ready(specs, Members(order), i) && WellFounded(specs, i)
  {
    assert i in order;
    var p :| 0 <= p < |order| && order[p] == i;
    OrderedIsWellFounded(specs, order, p);
    ReadyMore(specs, Members(order[..p]), Members(order), i);
  }

  lemma ReadyIsWellFounded(specs: seq<MapSpec>, order: seq<nat>, i: nat)
    requires TemplatesFirst(specs, order) && i < |specs| && Ready(specs, Members(order), i)
    ensures WellFounded(specs, i)
  {
    ExtendsOrder(specs, order, i);
    OrderedIsWellFounded(specs, order + [i], |order|);
  }

  lemma AgreesAtDepth(specs: seq<MapSpec>, kernel: Kernel, i: nat, id: KernelId, n: nat)
    requires i < |specs| && ReachesLeaf(specs, i, n)
    ensures Agrees(specs, kernel, i, id) <==> ChainMatches(specs, kernel, i, id, n)
  {
    forall m: nat | ReachesLeaf(specs, i, m) ensures m == n {
      DepthIsUnique(specs, i, n, m);
    }
  }

  /** Resolving templates changes nothing else. */
  lemma ResolvedKeeps(specs: seq<MapSpec>, before: Kernel, l: Load, states: seq<MapState>, order: seq<nat>)
    requires Sound(specs, before, l, order) && Shaped(specs, states) && |states| == |l.states|
    requires forall k :: 0 <= k < |states| ==> states[k].(inner := l.states[k].inner) == l.states[k]
    ensures Sound(specs, before, Load(states, l.kernel), order)
  {
    assert forall k :: 0 <= k < |states| ==> states[k].handle == l.states[k].handle;
    assert forall k: nat, p :: PinnedHere(specs, states, k, p) <==> PinnedHere(specs, l.states, k, p);
    forall p | p in l.kernel.pins && p !in before.pins ensures exists k: nat :: PinnedHere(specs, states, k, p) {
      var k: nat :| PinnedHere(specs, l.states, k, p);
      assert PinnedHere(specs, states, k, p);
    }
  }
}

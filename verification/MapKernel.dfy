/** The kernel's maps and pins, and the state of an object load in progress. */
module MapKernel {
  import opened Wrappers
  import opened MapTemplates

  type KernelId = nat

  datatype KernelMap = KernelMap(definition: Definition, inner: Option<KernelId>)
  datatype Kernel = Kernel(maps: map<KernelId, KernelMap>, pins: map<string, KernelId>)

  /** What the loader has done for a map: its resolved template, the kernel map behind its handle, its pin. */
  datatype MapState = MapState(inner: Option<nat>, handle: Option<KernelId>, pinned: bool, reused: bool)

  datatype Load = Load(states: seq<MapState>, kernel: Kernel)

  // ---- levels of a chain of templates ----

  /** The map reached from map i by following k templates. */
  ghost function MapLevel(specs: seq<MapSpec>, i: nat, k: nat): Option<nat>
    requires i < |specs|
    decreases k
  {
    if k == 0 then Some(i)
    else match Template(specs, i) case None => None case Some(j) => MapLevel(specs, j, k - 1)
  }

  ghost function KernelLevel(kernel: Kernel, id: KernelId, k: nat): Option<KernelId>
    decreases k
  {
    if id !in kernel.maps then None
    else if k == 0 then Some(id)
    else match kernel.maps[id].inner case None => None case Some(inner) => KernelLevel(kernel, inner, k - 1)
  }

  ghost predicate LevelMatches(specs: seq<MapSpec>, kernel: Kernel, i: nat, id: KernelId, k: nat)
    requires i < |specs|
  {
    var m, l := MapLevel(specs, i, k), KernelLevel(kernel, id, k);
    m.Some? && l.Some? && m.value < |specs| && l.value in kernel.maps
    && kernel.maps[l.value].definition == specs[m.value].definition
  }

  /** Every level of the object's map has the definition of the kernel's map at that level. */
  ghost predicate ChainMatches(specs: seq<MapSpec>, kernel: Kernel, i: nat, id: KernelId, n: nat)
    requires i < |specs|
  {
    forall k: nat :: k <= n ==> LevelMatches(specs, kernel, i, id, k)
  }

  lemma LevelBelow(specs: seq<MapSpec>, kernel: Kernel, i: nat, id: KernelId, k: nat, j: nat, inner: KernelId)
    requires i < |specs| && k > 0 && IsTemplate(specs, i, j)
    requires id in kernel.maps && kernel.maps[id].inner == Some(inner)
    ensures LevelMatches(specs, kernel, i, id, k) == LevelMatches(specs, kernel, j, inner, k - 1)
  {
  }

  /** One level of the comparison: this level agrees, and the chain below it agrees. */
  lemma ChainStep(specs: seq<MapSpec>, kernel: Kernel, i: nat, id: KernelId, n: nat, j: nat)
    requires i < |specs| && n > 0 && IsTemplate(specs, i, j)
    ensures ChainMatches(specs, kernel, i, id, n) <==>
            && id in kernel.maps && kernel.maps[id].definition == specs[i].definition
            && kernel.maps[id].inner.Some?
            && ChainMatches(specs, kernel, j, kernel.maps[id].inner.value, n - 1)
  {
    assert LevelMatches(specs, kernel, i, id, 0) <==> id in kernel.maps && kernel.maps[id].definition == specs[i].definition;
    if id in kernel.maps && kernel.maps[id].inner.Some? {
      var inner := kernel.maps[id].inner.value;
      forall k | 1 <= k <= n
        ensures LevelMatches(specs, kernel, i, id, k) == LevelMatches(specs, kernel, j, inner, k - 1)
      {
        LevelBelow(specs, kernel, i, id, k, j, inner);
      }
      if ChainMatches(specs, kernel, i, id, n) {
        forall k | 0 <= k <= n - 1 ensures LevelMatches(specs, kernel, j, inner, k) {
          assert LevelMatches(specs, kernel, i, id, k + 1);
        }
      }
    } else {
      assert !LevelMatches(specs, kernel, i, id, 1);
    }
  }

  /** The kernel's maps only grow while an object is loaded. */
  ghost predicate Grows(before: Kernel, after: Kernel) {
    forall id :: id in before.maps ==> id in after.maps && after.maps[id] == before.maps[id]
  }

  lemma {:induction false} LevelFrame(before: Kernel, after: Kernel, id: KernelId, k: nat)
    requires Grows(before, after) && KernelLevel(before, id, k).Some?
    ensures KernelLevel(after, id, k) == KernelLevel(before, id, k)
    decreases k
  {
    if k > 0 {
      LevelFrame(before, after, before.maps[id].inner.value, k - 1);
    }
  }

  lemma {:induction false} LevelExists(kernel: Kernel, id: KernelId, k: nat)
    requires KernelLevel(kernel, id, k).Some?
    ensures KernelLevel(kernel, id, k).value in kernel.maps
    decreases k
  {
    if k > 0 {
      LevelExists(kernel, kernel.maps[id].inner.value, k - 1);
    }
  }

  lemma ChainFrame(specs: seq<MapSpec>, before: Kernel, after: Kernel, i: nat, id: KernelId, n: nat)
    requires Grows(before, after) && i < |specs| && ChainMatches(specs, before, i, id, n)
    ensures ChainMatches(specs, after, i, id, n)
  {
    forall k | 0 <= k <= n ensures LevelMatches(specs, after, i, id, k) {
      assert LevelMatches(specs, before, i, id, k);
      LevelFrame(before, after, id, k);
    }
  }

  /** Whatever the depth of map i, its chain agrees with the kernel's. */
  ghost predicate Agrees(specs: seq<MapSpec>, kernel: Kernel, i: nat, id: KernelId)
    requires i < |specs|
  {
    forall n: nat :: ReachesLeaf(specs, i, n) ==> ChainMatches(specs, kernel, i, id, n)
  }

  lemma AgreesFrame(specs: seq<MapSpec>, before: Kernel, after: Kernel, i: nat, id: KernelId)
    requires Grows(before, after) && i < |specs| && Agrees(specs, before, i, id)
    ensures Agrees(specs, after, i, id)
  {
    forall n | ReachesLeaf(specs, i, n) ensures ChainMatches(specs, after, i, id, n) {
      ChainFrame(specs, before, after, i, id, n);
    }
  }
}

/** Creating the maps of an object in dependency order, with reuse of pinned maps and rollback of pins. */
module MapCreation {
  import opened Wrappers
  import opened MapTemplates
  import opened MapKernel
  import opened MapCreationSteps

  /** What the kernel answers in each round: whether a pin can be opened, the new map, whether it can be pinned; and,
      for each map, whether it can be unpinned. */
  datatype Answers = Answers(opens: seq<bool>, creates: seq<Option<KernelId>>, pins: seq<bool>, unpins: seq<bool>)

  datatype Outcome = Created | InvalidObject | Refused

  /** In this state, the kernel and the reuse check let map i be created or reused. */
  ghost predicate Accepts(specs: seq<MapSpec>, kernel: Kernel, i: nat, opens: bool, newId: Option<KernelId>, pins: bool)
    requires i < |specs|
  {
    if specs[i].pinByName && specs[i].pinPath.Some? && opens && specs[i].pinPath.value in kernel.pins
    then Agrees(specs, kernel, i, kernel.pins[specs[i].pinPath.value])
    else newId.Some? && (specs[i].pinPath.Some? ==> pins && specs[i].pinPath.value !in kernel.pins)
  }

  class ObjectLoader {
    const specs: seq<MapSpec>
    var states: seq<MapState>
    var kernel: Kernel

    constructor (specs: seq<MapSpec>, kernel: Kernel)
      ensures this.specs == specs && this.kernel == kernel
      ensures Sound(specs, kernel, Load(states, kernel), [])
    {
      this.specs := specs;
      this.kernel := kernel;
      this.states := seq(|specs|, _ => MapState(None, None, false, false));
      new;
      assert Members([]) == {};
    }

    /** Looks for the first map that map i names. */
    method FindTemplate(i: nat) returns (template: Option<nat>)
      requires i < |specs|
      ensures template.Some? ==> IsTemplate(specs, i, template.value)
      ensures template.None? ==> HasNoTemplate(specs, i)
      ensures template.Some? ==> template.value < |specs| && FieldsMatch(specs, i, template.value)
      ensures forall k :: 0 <= k < (if template.Some? then template.value else |specs|) ==> !FieldsMatch(specs, i, k)
    {
      for j := 0 to |specs|
        invariant forall k :: 0 <= k < j ==> !specs[i].Names(specs[k])
      {
        if specs[i].Names(specs[j]) {
          TemplateExactly(specs, i, j);
          return Some(j);
        }
      }
      TemplateExactly(specs, i, 0);
      return None;
    }

    /** The first map that is not created and waits for no template; templates are resolved on the way. */
    method GetNextMapToCreate(ghost order: seq<nat>) returns (next: Option<nat>)
      requires Shaped(specs, states) && Ordered(specs, states, order)
      modifies this`states
      ensures Shaped(specs, states)
      ensures |states| == |old(states)|
      ensures forall k :: 0 <= k < |states| ==> states[k].(inner := old(states)[k].inner) == old(states)[k]
      ensures next.None? ==> forall k :: 0 <= k < |specs| && states[k].handle.None? ==> !Ready(specs, Members(order), k)
      ensures next.Some? ==>
        && next.value < |specs| && states[next.value].handle.None? && Ready(specs, Members(order), next.value)
        && (specs[next.value].IsMapOfMaps() ==> InnerHandle(states, next.value).Some?)
        && forall k :: 0 <= k < next.value && states[k].handle.None? ==> !Ready(specs, Members(order), k)
    {
      hide Ready, Members, TemplatesFirst, IsTemplate, HasNoTemplate;
      for i := 0 to |specs|
        invariant Shaped(specs, states)
        invariant forall k :: 0 <= k < |states| ==> states[k].(inner := old(states)[k].inner) == old(states)[k]
        invariant forall k :: 0 <= k < i && states[k].handle.None? ==> !Ready(specs, Members(order), k)
      {
        if states[i].handle.Some? {
          continue;
        }
        if !specs[i].IsMapOfMaps() {
          ReadyAlone(specs, Members(order), i);
          return Some(i);
        }
        if states[i].inner.None? {
          var template := FindTemplate(i);
          if template.None? {
            NotReady(specs, Members(order), i);
            continue;
          }
          states := Resolved(states, i, template.value);
        }
        ReadyByTemplate(specs, states, order, i, states[i].inner.value);
        if states[states[i].inner.value].handle.None? {
          continue;
        }
        return Some(i);
      }
      return None;
    }

    /** Compares map i with the kernel map `id`, and then their templates. The chain of templates ends, because every
        template was created before the map that uses it. */
    method ValidateMap(i: nat, id: KernelId, ghost order: seq<nat>, ghost n: nat) returns (valid: bool)
      requires Shaped(specs, states) && Ordered(specs, states, order)
      requires i < |specs| && Ready(specs, Members(order), i) && (specs[i].IsMapOfMaps() ==> states[i].inner.Some?)
      requires ReachesLeaf(specs, i, n)
      ensures valid <==> ChainMatches(specs, kernel, i, id, n)
      decreases n
    {
      if id !in kernel.maps || kernel.maps[id].definition != specs[i].definition {
        assert !LevelMatches(specs, kernel, i, id, 0);
        return false;
      }
      if !specs[i].IsMapOfMaps() {
        assert LevelMatches(specs, kernel, i, id, 0);
        return true;
      }
      var j := states[i].inner.value;
      ghost var k: nat :| IsTemplate(specs, i, k) && ReachesLeaf(specs, k, n - 1);
      TemplateIsUnique(specs, i, j, k);
      ghost var m: nat :| IsTemplate(specs, i, m) && m in Members(order);
      TemplateIsUnique(specs, i, j, m);
      ChainStep(specs, kernel, i, id, n, j);
      if kernel.maps[id].inner.None? {
        return false;
      }
      CreatedReady(specs, states, order, j);
      valid := ValidateMap(j, kernel.maps[id].inner.value, order, n - 1);
    }

    /** One round of the load: map i is reused from its pin, or created and pinned. */
    method CreateMap(i: nat, opens: bool, newId: Option<KernelId>, pins: bool, ghost before: Kernel, ghost order: seq<nat>)
      returns (ok: bool, ghost after: seq<nat>)
      requires Sound(specs, before, Load(states, kernel), order)
      requires i < |specs| && states[i].handle.None? && Ready(specs, Members(order), i)
      requires specs[i].IsMapOfMaps() ==> InnerHandle(states, i).Some?
      requires specs[i].pinByName ==> specs[i].pinPath.Some?
      requires newId.Some? ==> newId.value !in kernel.maps
      modifies this
      ensures ok <==> old(Accepts(specs, kernel, i, opens, newId, pins))
      ensures Sound(specs, before, Load(states, kernel), after)
      ensures ok ==> after == order + [i]
      ensures ok && old(Placed(specs, before, Load(states, kernel))) ==> Placed(specs, before, Load(states, kernel))
      ensures kernel.maps.Keys <= old(kernel).maps.Keys + (if newId.Some? then {newId.value} else {})
    {
      ghost var l := Load(states, kernel);
      NotYetPinned(specs, before, l, order, i);
      hide Sound, Agrees, Placed, Grows, Ready;
      after := order;
      if specs[i].pinByName && opens && specs[i].pinPath.value in kernel.pins {
        ok := CheckReuse(i, before, order);
        if ok {
          ReusedKeeps(specs, before, l, order, i, kernel.pins[specs[i].pinPath.value]);
          ReusedPlaced(specs, before, l, i);
          states := states[i := states[i].(handle := Some(kernel.pins[specs[i].pinPath.value]), reused := true, pinned := true)];
          after := order + [i];
        }
        return;
      }
      if newId.None? {
        return false, order;
      }
      after := order + [i];
      MadeKeeps(specs, before, l, order, i, newId.value);
      MadePlaced(specs, before, l, i, newId.value);
      ghost var made := Made(l, specs[i].definition, i, newId.value);
      kernel := kernel.(maps := kernel.maps[newId.value := KernelMap(specs[i].definition, InnerHandle(states, i))]);
      states := states[i := states[i].(handle := newId)];
      assert made == Load(states, kernel);
      if specs[i].pinPath.Some? {
        var path := specs[i].pinPath.value;
        if !pins || path in kernel.pins {
          return false, after;
        }
        PinnedKeeps(specs, before, made, after, i, path);
        kernel := kernel.(pins := kernel.pins[path := newId.value]);
        states := states[i := states[i].(pinned := true)];
      }
      return true, after;
    }

    /** The reuse check of a map whose pin path is in use. */
    method CheckReuse(i: nat, ghost before: Kernel, ghost order: seq<nat>) returns (ok: bool)
      requires Sound(specs, before, Load(states, kernel), order)
      requires i < |specs| && Ready(specs, Members(order), i) && (specs[i].IsMapOfMaps() ==> states[i].inner.Some?)
      requires specs[i].pinPath.Some? && specs[i].pinPath.value in kernel.pins
      ensures ok <==> Agrees(specs, kernel, i, kernel.pins[specs[i].pinPath.value])
    {
      hide Agrees, ChainMatches, Pins, Agreed;
      ReadyIsWellFounded(specs, order, i);
      ghost var n: nat :| ReachesLeaf(specs, i, n);
      var id := kernel.pins[specs[i].pinPath.value];
      ok := ValidateMap(i, id, order, n);
      AgreesAtDepth(specs, kernel, i, id, n);
    }

    /** Unpins every map that this load pinned; each of these pins is still there. A pin stays when the kernel refuses. */
    method RollBack(unpins: seq<bool>, ghost before: map<string, KernelId>)
      requires |states| == |specs| == |unpins| && Pins(specs, before, states, kernel.pins)
      modifies this
      ensures Pins(specs, before, Undone(specs, old(states), unpins, |specs|), kernel.pins)
      ensures kernel.maps == old(kernel).maps && states == []
    {
      ghost var was := states;
      hide Pins;
      for i := 0 to |specs|
        invariant |states| == |specs| && states == Undone(specs, was, unpins, i)
        invariant Pins(specs, before, states, kernel.pins) && kernel.maps == old(kernel).maps
      {
        if specs[i].pinPath.Some? && states[i].pinned && !states[i].reused && unpins[i] {
          var path := specs[i].pinPath.value;
          UnpinnedPins(specs, before, Load(states, kernel), i, path);
          kernel := kernel.(pins := kernel.pins - {path});
          states := states[i := states[i].(pinned := false)];
        }
      }
      states := [];
    }

    /** A round's choice of map, with what it means when there is none. */
    method NextMap(ghost before: Kernel, ghost order: seq<nat>) returns (next: Option<nat>)
      requires Sound(specs, before, Load(states, kernel), order)
      modifies this`states
      ensures Sound(specs, before, Load(states, kernel), order)
      ensures old(Placed(specs, before, Load(states, kernel))) ==> Placed(specs, before, Load(states, kernel))
      ensures next.None? && |order| < |specs| ==> !AllWellFounded(specs)
      ensures next.Some? ==>
        && next.value < |specs| && next.value < |states| && states[next.value].handle.None?
        && Ready(specs, Members(order), next.value)
        && (specs[next.value].IsMapOfMaps() ==> InnerHandle(states, next.value).Some?)
    {
      ghost var l := Load(states, kernel);
      hide Agreed, Pins, Grows;
      next := GetNextMapToCreate(order);
      ResolvedKeeps(specs, before, l, states, order);
      if next.None? {
        NoneLeft(specs, states, order);
      }
    }

    /** The rounds of a load: as many as there are maps, each with the next map that waits for no template. */
    method CreateInOrder(answers: Answers) returns (outcome: Outcome, ghost order: seq<nat>)
      requires Sound(specs, kernel, Load(states, kernel), [])
      requires ValidAnswers(specs, kernel, answers)
      requires forall i :: 0 <= i < |specs| && specs[i].pinByName ==> specs[i].pinPath.Some?
      modifies this
      ensures Sound(specs, old(kernel), Load(states, kernel), order)
      ensures outcome.Created? ==> |order| == |specs| && Placed(specs, old(kernel), Load(states, kernel))
      ensures outcome.InvalidObject? ==> !AllWellFounded(specs)
      ensures outcome.Refused? ==> !Agreeable(specs, old(kernel), answers)
    {
      ghost var before := kernel;
      order := [];
      NothingPlaced(specs, before, Load(states, kernel));
      hide Sound, Placed, Agreeable, Accepts, AllWellFounded, Ready, InnerHandle;
      for count := 0 to |specs|
        invariant Sound(specs, before, Load(states, kernel), order) && Placed(specs, before, Load(states, kernel))
        invariant |order| == count
        invariant Unused(kernel, answers, count)
      {
        var next := NextMap(before, order);
        if next.None? {
          return InvalidObject, order;
        }
        ghost var l := Load(states, kernel);
        var ok, after := CreateMap(next.value, answers.opens[count], answers.creates[count], answers.pins[count], before, order);
        if !ok {
          RefusalHasReason(specs, before, l, order, answers, next.value, count);
          return Refused, after;
        }
        order := after;
      }
      return Created, order;
    }

    /** The whole load of an object's maps. */
    method CreateMaps(answers: Answers) returns (outcome: Outcome, ghost made: seq<MapState>)
      requires Sound(specs, kernel, Load(states, kernel), [])
      requires ValidAnswers(specs, kernel, answers)
      requires forall i :: 0 <= i < |specs| && specs[i].pinByName ==> specs[i].pinPath.Some?
      modifies this
      ensures outcome.Created? ==> AllWellFounded(specs) && Loaded(specs, old(kernel), Load(states, kernel))
      ensures outcome.InvalidObject? ==> !AllWellFounded(specs)
      ensures !outcome.Created? ==> states == [] && Grows(old(kernel), kernel)
      ensures !outcome.Created? ==>
        |made| == |specs| && Pins(specs, old(kernel).pins, Undone(specs, made, answers.unpins, |specs|), kernel.pins)
      ensures Agreeable(specs, old(kernel), answers) ==>
        outcome == if AllWellFounded(specs) then Created else InvalidObject
      ensures Agreeable(specs, old(kernel), answers) ==> (outcome.Created? <==> exists ranks :: Ranked(specs, ranks))
    {
      RankedExactly(specs);
      hide Agreeable, AllWellFounded, Ranked;
      ghost var before := kernel;
      ghost var order;
      outcome, order := CreateInOrder(answers);
      made := states;
      if outcome.Created? {
        AllCreated(specs, before, Load(states, kernel), order);
      } else {
        RollBack(answers.unpins, before.pins);
      }
    }
  }

  lemma ReadyAlone(specs: seq<MapSpec>, created: set<nat>, i: nat)
    requires i < |specs| && !specs[i].IsMapOfMaps()
    ensures Ready(specs, created, i)
  {
  }

  lemma NotReady(specs: seq<MapSpec>, created: set<nat>, i: nat)
    requires i < |specs| && specs[i].IsMapOfMaps() && HasNoTemplate(specs, i)
    ensures !Ready(specs, created, i)
  {
  }

  /** A map of maps is ready exactly when its template has a handle. */
  lemma ReadyByTemplate(specs: seq<MapSpec>, states: seq<MapState>, order: seq<nat>, i: nat, j: nat)
    requires i < |specs| == |states| && specs[i].IsMapOfMaps() && IsTemplate(specs, i, j)
    requires forall k :: 0 <= k < |states| ==> (states[k].handle.Some? <==> k in order)
    ensures j < |specs| && (Ready(specs, Members(order), i) <==> states[j].handle.Some?)
  {
  }

  /** One answer per round, and a new map never gets the id of an existing one. */
  ghost predicate ValidAnswers(specs: seq<MapSpec>, kernel: Kernel, answers: Answers) {
    && |answers.opens| == |answers.creates| == |answers.pins| == |answers.unpins| == |specs|
    && Unused(kernel, answers, 0)
  }

  ghost predicate Unused(kernel: Kernel, answers: Answers, count: nat) {
    && (forall c :: count <= c < |answers.creates| && answers.creates[c].Some? ==> answers.creates[c].value !in kernel.maps)
    && (forall c, d :: 0 <= c < d < |answers.creates| && answers.creates[c].Some? && answers.creates[d].Some? ==>
          answers.creates[c].value != answers.creates[d].value)
  }

  /** Nothing stands in the way: the kernel refuses nothing, no two maps share a pin path, and a path in use is that
      of a map which is pinned by name and agrees with the map pinned there. */
  ghost predicate Agreeable(specs: seq<MapSpec>, kernel: Kernel, answers: Answers) {
    && |answers.opens| == |answers.creates| == |answers.pins| == |specs|
    && (forall c :: 0 <= c < |specs| ==> answers.opens[c] && answers.creates[c].Some? && answers.pins[c])
    && (forall i, k :: 0 <= i < k < |specs| && specs[i].pinPath.Some? ==> specs[i].pinPath != specs[k].pinPath)
    && (forall i :: 0 <= i < |specs| && specs[i].pinPath.Some? && specs[i].pinPath.value in kernel.pins ==>
          specs[i].pinByName && Agrees(specs, kernel, i, kernel.pins[specs[i].pinPath.value]))
  }

  /** A finished load: every map has a handle, the kernel's map has its definition at every level of its templates, it
      is pinned at its path and new or reused by name, and the pins are those from before and one per map that was
      pinned. */
  ghost predicate Loaded(specs: seq<MapSpec>, before: Kernel, l: Load) {
    && |l.states| == |specs|
    && (forall i :: 0 <= i < |specs| ==>
          && l.states[i].handle.Some? && l.states[i].handle.value in l.kernel.maps
          && l.kernel.maps[l.states[i].handle.value].definition == specs[i].definition
          && Agrees(specs, l.kernel, i, l.states[i].handle.value))
    && Pins(specs, before.pins, l.states, l.kernel.pins) && Grows(before, l.kernel) && Placed(specs, before, l)
  }

  lemma NothingPlaced(specs: seq<MapSpec>, before: Kernel, l: Load)
    requires Sound(specs, before, l, [])
    ensures Placed(specs, before, l)
  {
  }

  lemma NoneLeft(specs: seq<MapSpec>, states: seq<MapState>, order: seq<nat>)
    requires Ordered(specs, states, order) && |states| == |specs|
    requires forall k :: 0 <= k < |specs| && states[k].handle.None? ==> !Ready(specs, Members(order), k)
    ensures |order| < |specs| ==> !AllWellFounded(specs)
  {
    OrderComplete(specs, states, order);
    if |order| < |specs| && AllWellFounded(specs) {
      var i :| 0 <= i < |specs| && i !in order;
      assert WellFounded(specs, i);
      var n: nat :| ReachesLeaf(specs, i, n);
      var r := SomeReady(specs, Members(order), i, n);
      assert false;
    }
  }

  lemma AllCreated(specs: seq<MapSpec>, before: Kernel, l: Load, order: seq<nat>)
    requires Sound(specs, before, l, order) && |order| == |specs| && Placed(specs, before, l)
    ensures AllWellFounded(specs) && Loaded(specs, before, l)
  {
    OrderComplete(specs, l.states, order);
    WellFoundedExactly(specs, order);
    forall i | 0 <= i < |specs|
      ensures l.states[i].handle.Some? && l.states[i].handle.value in l.kernel.maps
      ensures l.kernel.maps[l.states[i].handle.value].definition == specs[i].definition
    {
      assert WellFounded(specs, i);
      var n: nat :| ReachesLeaf(specs, i, n);
      assert LevelMatches(specs, l.kernel, i, l.states[i].handle.value, 0);
    }
  }

  /** A round is refused only when something stood in the way from the beginning. */
  lemma RefusalHasReason(specs: seq<MapSpec>, before: Kernel, l: Load, order: seq<nat>, answers: Answers, i: nat, c: nat)
    requires Sound(specs, before, l, order) && i < |specs| && l.states[i].handle.None?
    requires |answers.opens| == |answers.creates| == |answers.pins| == |specs| && c < |specs|
    requires !Accepts(specs, l.kernel, i, answers.opens[c], answers.creates[c], answers.pins[c])
    ensures !Agreeable(specs, before, answers)
  {
    if specs[i].pinPath.Some? {
      var path := specs[i].pinPath.value;
      if path in l.kernel.pins && path !in before.pins {
        var k: nat :| PinnedHere(specs, l.states, k, path);
        assert specs[k].pinPath == specs[i].pinPath && k != i;
      } else if path in before.pins && Agrees(specs, before, i, before.pins[path]) {
        AgreesFrame(specs, before, l.kernel, i, before.pins[path]);
      }
    }
  }

  lemma NotYetPinned(specs: seq<MapSpec>, before: Kernel, l: Load, order: seq<nat>, i: nat)
    requires Sound(specs, before, l, order) && i < |specs| && l.states[i].handle.None?
    ensures |l.states| == |specs| && !l.states[i].pinned && !l.states[i].reused && Grows(before, l.kernel)
  {
  }
}

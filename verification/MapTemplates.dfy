/** The maps of an object file, and which map is the inner template of which. */
module MapTemplates {
  import opened Wrappers

  const HASH_OF_MAPS := 6
  const ARRAY_OF_MAPS := 7

  datatype Definition = Definition(mapType: nat, keySize: nat, valueSize: nat, maxEntries: nat)

  /** What the object file says about a map. `innerMapId` is None for EBPF_ID_NONE. */
  datatype MapSpec = MapSpec(definition: Definition, mapId: nat, innerMapId: Option<nat>, originalFd: int,
                             innerOriginalFd: int, pinByName: bool, pinPath: Option<string>)
  {
    predicate IsMapOfMaps() {
      definition.mapType == ARRAY_OF_MAPS || definition.mapType == HASH_OF_MAPS
    }

    /** `other` is named as the template, by id or by file descriptor. */
    predicate Names(other: MapSpec) {
      (innerMapId.Some? && other.mapId == innerMapId.value) || innerOriginalFd == other.originalFd
    }
  }

  /** The first map of the object that map i names. */
  ghost predicate IsTemplate(specs: seq<MapSpec>, i: nat, j: nat)
    requires i < |specs|
  {
    j < |specs| && specs[i].Names(specs[j]) && forall k :: 0 <= k < j ==> !specs[i].Names(specs[k])
  }

  ghost predicate HasNoTemplate(specs: seq<MapSpec>, i: nat)
    requires i < |specs|
  {
    forall k :: 0 <= k < |specs| ==> !specs[i].Names(specs[k])
  }

  /** What the fields say: map i gives the id of map j, or has its file descriptor. */
  predicate FieldsMatch(specs: seq<MapSpec>, i: nat, j: nat)
    requires i < |specs| && j < |specs|
  {
    specs[i].innerMapId == Some(specs[j].mapId) || specs[i].innerOriginalFd == specs[j].originalFd
  }

  /** The template is the first map whose fields match. */
  lemma TemplateExactly(specs: seq<MapSpec>, i: nat, j: nat)
    requires i < |specs|
    ensures IsTemplate(specs, i, j) <==>
            j < |specs| && FieldsMatch(specs, i, j) && forall k :: 0 <= k < j ==> !FieldsMatch(specs, i, k)
    ensures HasNoTemplate(specs, i) <==> forall k :: 0 <= k < |specs| ==> !FieldsMatch(specs, i, k)
  {
    forall k | 0 <= k < |specs| ensures specs[i].Names(specs[k]) <==> FieldsMatch(specs, i, k) {
    }
  }

  lemma TemplateIsUnique(specs: seq<MapSpec>, i: nat, j: nat, k: nat)
    requires i < |specs| && IsTemplate(specs, i, j) && IsTemplate(specs, i, k)
    ensures j == k
  {
  }

  ghost function Template(specs: seq<MapSpec>, i: nat): Option<nat>
    requires i < |specs|
  {
    if exists j: nat :: IsTemplate(specs, i, j) then
      var j: nat :| IsTemplate(specs, i, j);
      Some(j)
    else None
  }

  /** Following the templates from map i reaches a map that needs none in n steps. */
  ghost predicate ReachesLeaf(specs: seq<MapSpec>, i: nat, n: nat)
    requires i < |specs|
    decreases n
  {
    if n == 0 then !specs[i].IsMapOfMaps()
    else specs[i].IsMapOfMaps() && exists j: nat :: IsTemplate(specs, i, j) && ReachesLeaf(specs, j, n - 1)
  }

  /** A map whose type is 6 or 7, whose fields match map j first, has a chain exactly one longer than that of map j. */
  lemma ReachesLeafByFields(specs: seq<MapSpec>, i: nat, j: nat, n: nat)
    requires i < |specs| && j < |specs| && (specs[i].definition.mapType == 6 || specs[i].definition.mapType == 7)
    requires FieldsMatch(specs, i, j) && forall k :: 0 <= k < j ==> !FieldsMatch(specs, i, k)
    ensures ReachesLeaf(specs, i, n + 1) <==> ReachesLeaf(specs, j, n)
  {
    TemplateExactly(specs, i, j);
    if ReachesLeaf(specs, i, n + 1) {
      var m: nat :| IsTemplate(specs, i, m) && ReachesLeaf(specs, m, n);
      TemplateIsUnique(specs, i, j, m);
    }
  }

  /** A map of another type needs no template. */
  lemma LeafByFields(specs: seq<MapSpec>, i: nat)
    requires i < |specs|
    ensures ReachesLeaf(specs, i, 0) <==> specs[i].definition.mapType != 6 && specs[i].definition.mapType != 7
  {
  }

  ghost predicate WellFounded(specs: seq<MapSpec>, i: nat)
    requires i < |specs|
  {
    exists n: nat :: ReachesLeaf(specs, i, n)
  }

  ghost predicate AllWellFounded(specs: seq<MapSpec>) {
    forall i :: 0 <= i < |specs| ==> WellFounded(specs, i)
  }

  /** A map can be created when it needs no template or its template exists. */
  ghost predicate Ready(specs: seq<MapSpec>, created: set<nat>, i: nat)
    requires i < |specs|
  {
    specs[i].IsMapOfMaps() ==> exists j: nat :: IsTemplate(specs, i, j) && j in created
  }

  lemma {:induction false} SomeReady(specs: seq<MapSpec>, created: set<nat>, i: nat, n: nat) returns (r: nat)
    requires i < |specs| && i !in created && ReachesLeaf(specs, i, n)
    ensures r < |specs| && r !in created && Ready(specs, created, r)
    decreases n
  {
    r := i;
    if n > 0 {
      var j: nat :| IsTemplate(specs, i, j) && ReachesLeaf(specs, j, n - 1);
      if j !in created {
        r := SomeReady(specs, created, j, n - 1);
      }
    }
  }

  /** An order in which every template comes before the maps that use it. */
  ghost predicate TemplatesFirst(specs: seq<MapSpec>, order: seq<nat>) {
    forall p :: 0 <= p < |order| ==> order[p] < |specs| && Ready(specs, Members(order[..p]), order[p])
  }

  ghost function Members(order: seq<nat>): set<nat> {
    set i | i in order
  }

  lemma {:induction false} OrderedIsWellFounded(specs: seq<MapSpec>, order: seq<nat>, p: nat)
    requires TemplatesFirst(specs, order) && p < |order|
    ensures order[p] < |specs| && WellFounded(specs, order[p])
    decreases p
  {
    var i := order[p];
    assert Ready(specs, Members(order[..p]), i);
    if specs[i].IsMapOfMaps() {
      var j: nat :| IsTemplate(specs, i, j) && j in Members(order[..p]);
      var q :| 0 <= q < p && order[q] == j;
      OrderedIsWellFounded(specs, order, q);
      var n: nat :| ReachesLeaf(specs, j, n);
      assert ReachesLeaf(specs, i, n + 1);
    } else {
      assert ReachesLeaf(specs, i, 0);
    }
  }

  lemma ExtendsOrder(specs: seq<MapSpec>, order: seq<nat>, i: nat)
    requires TemplatesFirst(specs, order) && i < |specs| && Ready(specs, Members(order), i)
    ensures TemplatesFirst(specs, order + [i]) && Members(order + [i]) == Members(order) + {i}
  {
    var after := order + [i];
    forall p | 0 <= p < |after| ensures after[p] < |specs| && Ready(specs, Members(after[..p]), after[p]) {
      if p < |order| {
        assert after[..p] == order[..p] && after[p] == order[p];
      } else {
        assert after[..p] == order;
      }
    }
  }

  /** A template order of all maps exists exactly when no chain of templates is broken or cyclic. */
  lemma WellFoundedExactly(specs: seq<MapSpec>, order: seq<nat>)
    requires TemplatesFirst(specs, order)
    requires forall i :: 0 <= i < |specs| ==> i in order
    ensures AllWellFounded(specs)
  {
    forall i | 0 <= i < |specs| ensures WellFounded(specs, i) {
      assert i in order;
      var p :| 0 <= p < |order| && order[p] == i;
      OrderedIsWellFounded(specs, order, p);
    }
  }

  // ---- in terms of the fields ----

  /** Ranks for the maps: each map of type 6 or 7 has a first map whose fields match, and that one has a lower rank. */
  ghost predicate Ranked(specs: seq<MapSpec>, ranks: seq<nat>) {
    && |ranks| == |specs|
    && forall i :: 0 <= i < |specs| && (specs[i].definition.mapType == 6 || specs[i].definition.mapType == 7) ==>
         exists j: nat :: RankedAbove(specs, ranks, i, j)
  }

  ghost predicate RankedAbove(specs: seq<MapSpec>, ranks: seq<nat>, i: nat, j: nat)
    requires |ranks| == |specs| && i < |specs|
  {
    && j < |specs| && ranks[j] < ranks[i] && FieldsMatch(specs, i, j)
    && forall k :: 0 <= k < j ==> !FieldsMatch(specs, i, k)
  }

  lemma {:induction false} RankedIsWellFounded(specs: seq<MapSpec>, ranks: seq<nat>, i: nat)
    requires Ranked(specs, ranks) && i < |specs|
    ensures WellFounded(specs, i)
    decreases ranks[i]
  {
    LeafByFields(specs, i);
    if specs[i].definition.mapType == 6 || specs[i].definition.mapType == 7 {
      var j: nat :| RankedAbove(specs, ranks, i, j);
      RankedIsWellFounded(specs, ranks, j);
      var n: nat :| ReachesLeaf(specs, j, n);
      ReachesLeafByFields(specs, i, j, n);
    } else {
      assert ReachesLeaf(specs, i, 0);
    }
  }

  ghost function Depth(specs: seq<MapSpec>, i: nat): nat
    requires i < |specs| && WellFounded(specs, i)
  {
    var n: nat :| ReachesLeaf(specs, i, n);
    n
  }

  lemma DepthsRank(specs: seq<MapSpec>)
    requires AllWellFounded(specs)
    ensures Ranked(specs, seq(|specs|, i requires 0 <= i < |specs| => Depth(specs, i)))
  {
    var ranks := seq(|specs|, i requires 0 <= i < |specs| => Depth(specs, i));
    forall i | 0 <= i < |specs| && (specs[i].definition.mapType == 6 || specs[i].definition.mapType == 7)
      ensures exists j: nat :: RankedAbove(specs, ranks, i, j)
    {
      var j := LowerDepth(specs, i);
      assert RankedAbove(specs, ranks, i, j);
    }
  }

  lemma LowerDepth(specs: seq<MapSpec>, i: nat) returns (j: nat)
    requires AllWellFounded(specs) && i < |specs|
    requires specs[i].definition.mapType == 6 || specs[i].definition.mapType == 7
    ensures j < |specs| && FieldsMatch(specs, i, j) && forall k :: 0 <= k < j ==> !FieldsMatch(specs, i, k)
    ensures Depth(specs, j) < Depth(specs, i)
  {
    var n := Depth(specs, i);
    LeafByFields(specs, i);
    j :| IsTemplate(specs, i, j) && ReachesLeaf(specs, j, n - 1);
    TemplateExactly(specs, i, j);
    DepthIsUnique(specs, j, Depth(specs, j), n - 1);
  }

  /** A chain has one depth. */
  lemma {:induction false} DepthIsUnique(specs: seq<MapSpec>, i: nat, n: nat, m: nat)
    requires i < |specs| && ReachesLeaf(specs, i, n) && ReachesLeaf(specs, i, m)
    ensures n == m
    decreases n
  {
    if n > 0 && m > 0 {
      var j: nat :| IsTemplate(specs, i, j) && ReachesLeaf(specs, j, n - 1);
      var k: nat :| IsTemplate(specs, i, k) && ReachesLeaf(specs, k, m - 1);
      TemplateIsUnique(specs, i, j, k);
      DepthIsUnique(specs, j, n - 1, m - 1);
    }
  }

  /** Every chain of templates ends exactly when the maps can be ranked by their fields. */
  lemma RankedExactly(specs: seq<MapSpec>)
    ensures AllWellFounded(specs) <==> exists ranks :: Ranked(specs, ranks)
  {
    if AllWellFounded(specs) {
      DepthsRank(specs);
    }
    forall ranks | Ranked(specs, ranks) ensures AllWellFounded(specs) {
      forall i | 0 <= i < |specs| ensures WellFounded(specs, i) {
        RankedIsWellFounded(specs, ranks, i);
      }
    }
  }

  /** A map of maps that names a plain map by its descriptor alone, the only one with it, has this map as its template,
      and its chain ends. */
  lemma NamedByDescriptor(specs: seq<MapSpec>, i: nat, j: nat)
    requires i < |specs| && j < |specs| && (specs[i].definition.mapType == 6 || specs[i].definition.mapType == 7)
    requires specs[i].innerMapId.None? && specs[i].innerOriginalFd == specs[j].originalFd
    requires forall k :: 0 <= k < |specs| && k != j ==> specs[k].originalFd != specs[i].innerOriginalFd
    ensures IsTemplate(specs, i, j) && (WellFounded(specs, i) <==> WellFounded(specs, j))
  {
    TemplateExactly(specs, i, j);
    TemplateDecides(specs, i, j);
  }

  /** The same by id, when no map has the descriptor. */
  lemma NamedById(specs: seq<MapSpec>, i: nat, j: nat)
    requires i < |specs| && j < |specs| && (specs[i].definition.mapType == 6 || specs[i].definition.mapType == 7)
    requires specs[i].innerMapId == Some(specs[j].mapId)
    requires forall k :: 0 <= k < |specs| && k != j ==> specs[k].mapId != specs[j].mapId
    requires forall k :: 0 <= k < |specs| && k != j ==> specs[k].originalFd != specs[i].innerOriginalFd
    ensures IsTemplate(specs, i, j) && (WellFounded(specs, i) <==> WellFounded(specs, j))
  {
    TemplateExactly(specs, i, j);
    TemplateDecides(specs, i, j);
  }

  lemma TemplateDecides(specs: seq<MapSpec>, i: nat, j: nat)
    requires i < |specs| && (specs[i].definition.mapType == 6 || specs[i].definition.mapType == 7) && IsTemplate(specs, i, j)
    ensures WellFounded(specs, i) <==> WellFounded(specs, j)
  {
    TemplateExactly(specs, i, j);
    LeafByFields(specs, i);
    if WellFounded(specs, i) {
      var n: nat :| ReachesLeaf(specs, i, n);
      ReachesLeafByFields(specs, i, j, n - 1);
    }
    if WellFounded(specs, j) {
      var n: nat :| ReachesLeaf(specs, j, n);
      ReachesLeafByFields(specs, i, j, n);
    }
  }
}

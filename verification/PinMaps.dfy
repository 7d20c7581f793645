/** Pinning and unpinning all maps of an object under a directory, with the rollback walk of a failed pin. */
module PinMaps {
  import opened Wrappers

  const PATH_MAX := 260
  const MAX_PIN_PATH_LENGTH := 256

  type Handle = nat

  datatype NamedMap = NamedMap(name: string, handle: Handle, pinPath: Option<string>, pinned: bool)
  {
    function Target(directory: string): string {
      directory + "/" + name
    }

    function PinnedAt(path: string): NamedMap {
      this.(pinPath := Some(path), pinned := true)
    }
  }

  datatype Outcome = Done | NameTooLong | PinFailed

  /** The path fits the buffer, the map is not pinned and has no other path, and the kernel takes the path. */
  predicate Pinnable(m: NamedMap, directory: string, accepts: bool) {
    var path := m.Target(directory);
    !m.pinned && (m.pinPath.None? || m.pinPath.value == path) && |path| < MAX_PIN_PATH_LENGTH && accepts
  }

  /** The pins after the first n maps are pinned. */
  function PinsWith(maps: seq<NamedMap>, directory: string, pins: map<string, Handle>, n: nat): map<string, Handle>
    requires n <= |maps|
  {
    if n == 0 then pins
    else PinsWith(maps, directory, pins, n - 1)[maps[n - 1].Target(directory) := maps[n - 1].handle]
  }

  /** Map i can be pinned after the maps before it. */
  predicate CanPin(maps: seq<NamedMap>, directory: string, pins: map<string, Handle>, accepts: seq<bool>, i: nat)
    requires i < |maps| == |accepts|
  {
    Pinnable(maps[i], directory, accepts[i]) && maps[i].Target(directory) !in PinsWith(maps, directory, pins, i)
  }

  lemma {:induction false} PinsWithContents(maps: seq<NamedMap>, directory: string, pins: map<string, Handle>, n: nat,
                                            p: string)
    requires n <= |maps|
    ensures p in PinsWith(maps, directory, pins, n) <==>
            p in pins || exists i :: 0 <= i < n && maps[i].Target(directory) == p
  {
    if n > 0 {
      PinsWithContents(maps, directory, pins, n - 1, p);
    }
  }

  /** All maps can be pinned exactly when each one alone can, no path is taken and no two paths are the same. */
  lemma PinnableExactly(maps: seq<NamedMap>, directory: string, pins: map<string, Handle>, accepts: seq<bool>)
    requires |accepts| == |maps|
    ensures (forall i :: 0 <= i < |maps| ==> CanPin(maps, directory, pins, accepts, i)) <==>
            && (forall i :: 0 <= i < |maps| ==> Pinnable(maps[i], directory, accepts[i]))
            && (forall i :: 0 <= i < |maps| ==> maps[i].Target(directory) !in pins)
            && (forall i, k :: 0 <= i < k < |maps| ==> maps[i].Target(directory) != maps[k].Target(directory))
  {
    forall i | 0 <= i < |maps|
      ensures maps[i].Target(directory) in PinsWith(maps, directory, pins, i) <==>
              maps[i].Target(directory) in pins
              || exists k :: 0 <= k < i && maps[k].Target(directory) == maps[i].Target(directory)
    {
      PinsWithContents(maps, directory, pins, i, maps[i].Target(directory));
    }
    if forall i :: 0 <= i < |maps| ==> CanPin(maps, directory, pins, accepts, i) {
      forall k | 0 <= k < |maps| ensures Pinnable(maps[k], directory, accepts[k]) {
        assert CanPin(maps, directory, pins, accepts, k);
      }
      forall i, k | 0 <= i < k < |maps| ensures maps[i].Target(directory) != maps[k].Target(directory) {
        assert CanPin(maps, directory, pins, accepts, k);
      }
      forall k | 0 <= k < |maps| ensures maps[k].Target(directory) !in pins {
        assert CanPin(maps, directory, pins, accepts, k);
      }
    } else {
      var k :| 0 <= k < |maps| && !CanPin(maps, directory, pins, accepts, k);
    }
  }

  lemma TargetsDiffer(a: NamedMap, b: NamedMap, directory: string)
    ensures a.Target(directory) == b.Target(directory) <==> a.name == b.name
  {
    var n := |directory| + 1;
    assert a.Target(directory)[n..] == a.name && b.Target(directory)[n..] == b.name;
  }

  /** In terms of names: no map is pinned or has another path, every path is short enough and accepted, no path is
      taken, and no two maps have the same name. */
  lemma PinnableByName(maps: seq<NamedMap>, directory: string, pins: map<string, Handle>, accepts: seq<bool>)
    requires |accepts| == |maps|
    ensures (forall i :: 0 <= i < |maps| ==> CanPin(maps, directory, pins, accepts, i)) <==>
            && (forall i :: 0 <= i < |maps| ==>
                  var path := directory + "/" + maps[i].name;
                  && !maps[i].pinned && (maps[i].pinPath.None? || maps[i].pinPath == Some(path))
                  && |directory| + 1 + |maps[i].name| < 256 && accepts[i] && path !in pins)
            && (forall i, k :: 0 <= i < k < |maps| ==> maps[i].name != maps[k].name)
  {
    PinnableExactly(maps, directory, pins, accepts);
    forall i, k | 0 <= i < k < |maps|
      ensures maps[i].Target(directory) == maps[k].Target(directory) <==> maps[i].name == maps[k].name
    {
      TargetsDiffer(maps[i], maps[k], directory);
    }
    hide CanPin;
  }

  /** The first n maps, and only they, have been pinned since the given state. */
  ghost predicate FirstPinned(before: seq<NamedMap>, pinsBefore: map<string, Handle>, directory: string,
                              maps: seq<NamedMap>, pins: map<string, Handle>, n: nat)
    requires n <= |maps| == |before|
  {
    && pins == PinsWith(before, directory, pinsBefore, n)
    && forall k :: 0 <= k < n ==>
         && !before[k].pinned && before[k].Target(directory) !in PinsWith(before, directory, pinsBefore, k)
         && maps[k] == before[k].PinnedAt(before[k].Target(directory))
  }

  /** A pin of all maps in progress: the first n could be pinned and are, the others are as before. */
  ghost predicate SoFar(before: seq<NamedMap>, pinsBefore: map<string, Handle>, directory: string, accepts: seq<bool>,
                        maps: seq<NamedMap>, pins: map<string, Handle>, n: nat)
    requires n <= |maps| == |before| == |accepts|
  {
    && FirstPinned(before, pinsBefore, directory, maps, pins, n)
    && (forall k :: 0 <= k < n ==> CanPin(before, directory, pinsBefore, accepts, k))
    && (forall k :: n <= k < |maps| ==> maps[k] == before[k])
  }

  lemma OneMorePinned(before: seq<NamedMap>, pinsBefore: map<string, Handle>, directory: string,
                      was: seq<NamedMap>, maps: seq<NamedMap>, i: nat)
    requires i < |before| == |was| && !before[i].pinned
    requires before[i].Target(directory) !in PinsWith(before, directory, pinsBefore, i)
    requires FirstPinned(before, pinsBefore, directory, was, PinsWith(before, directory, pinsBefore, i), i)
    requires maps == was[i := before[i].PinnedAt(before[i].Target(directory))]
    ensures FirstPinned(before, pinsBefore, directory, maps,
                        PinsWith(before, directory, pinsBefore, i)[before[i].Target(directory) := before[i].handle], i + 1)
  {
  }

  lemma NonePinned(maps: seq<NamedMap>, directory: string, accepts: seq<bool>, pins: map<string, Handle>)
    requires |accepts| == |maps|
    ensures SoFar(maps, pins, directory, accepts, maps, pins, 0)
  {
  }

  lemma FirstPinnedMeans(before: seq<NamedMap>, pinsBefore: map<string, Handle>, directory: string,
                         maps: seq<NamedMap>, pins: map<string, Handle>, n: nat)
    requires n <= |maps| == |before| && FirstPinned(before, pinsBefore, directory, maps, pins, n)
    ensures pins == PinsWith(before, directory, pinsBefore, n)
    ensures forall k :: 0 <= k < n ==> maps[k] == before[k].PinnedAt(before[k].Target(directory)) && !before[k].pinned
    ensures OwnTargets(before, directory, pinsBefore, n)
  {
  }

  lemma SameFirst(before: seq<NamedMap>, pinsBefore: map<string, Handle>, directory: string,
                  was: seq<NamedMap>, maps: seq<NamedMap>, pins: map<string, Handle>, n: nat)
    requires n <= |was| == |maps| == |before| && FirstPinned(before, pinsBefore, directory, was, pins, n)
    requires forall k :: 0 <= k < n ==> maps[k] == was[k]
    ensures FirstPinned(before, pinsBefore, directory, maps, pins, n)
  {
  }

  lemma TargetNotEmpty(m: NamedMap, directory: string)
    ensures |m.Target(directory)| > 0
  {
  }

  // ---- the rollback walk ----

  /** The pins when n maps were pinned and the walk back has come to map i: of the maps from i on, those stay pinned
      whose unpin the kernel refused. */
  function PinsLeft(maps: seq<NamedMap>, directory: string, pins: map<string, Handle>, unpins: seq<bool>, i: nat,
                    n: nat): map<string, Handle>
    requires n <= |maps| == |unpins| && i <= |maps|
    decreases n
  {
    if n <= i then PinsWith(maps, directory, pins, n)
    else
      var rest := PinsLeft(maps, directory, pins, unpins, i, n - 1);
      if unpins[n - 1] then rest else rest[maps[n - 1].Target(directory) := maps[n - 1].handle]
  }

  /** Map k after the walk: as before but for its path, or still pinned. */
  ghost predicate MapLeft(before: NamedMap, directory: string, unpinned: bool, after: NamedMap) {
    if unpinned then after.(pinPath := before.pinPath) == before else after == before.PinnedAt(before.Target(directory))
  }

  /** The walk has come down to map i: those before it are pinned still, those from the failed one on are as they were. */
  ghost predicate Walking(before: seq<NamedMap>, directory: string, unpins: seq<bool>, was: seq<NamedMap>,
                          maps: seq<NamedMap>, i: nat, n: nat) {
    && i <= n <= |before| == |unpins| == |was| == |maps|
    && (forall k :: 0 <= k < i ==> maps[k] == before[k].PinnedAt(before[k].Target(directory)) && !before[k].pinned)
    && (forall k :: i <= k < n ==> MapLeft(before[k], directory, unpins[k], maps[k]))
    && (forall k :: n <= k < |maps| ==> maps[k] == was[k])
  }

  lemma NotYetWalked(before: seq<NamedMap>, directory: string, unpins: seq<bool>, maps: seq<NamedMap>, n: nat)
    requires n <= |before| == |unpins| == |maps|
    requires forall k :: 0 <= k < n ==> maps[k] == before[k].PinnedAt(before[k].Target(directory)) && !before[k].pinned
    ensures Walking(before, directory, unpins, maps, maps, n, n)
  {
  }

  lemma Walked(before: seq<NamedMap>, directory: string, unpins: seq<bool>, was: seq<NamedMap>, maps: seq<NamedMap>, n: nat)
    requires Walking(before, directory, unpins, was, maps, 0, n)
    ensures forall k :: 0 <= k < n ==> MapLeft(before[k], directory, unpins[k], maps[k])
    ensures forall k :: n <= k < |maps| ==> maps[k] == was[k]
  {
  }

  /** The first n maps could be pinned, each at a path of its own. */
  ghost predicate OwnTargets(maps: seq<NamedMap>, directory: string, pins: map<string, Handle>, n: nat)
    requires n <= |maps|
  {
    forall k :: 0 <= k < n ==> maps[k].Target(directory) !in PinsWith(maps, directory, pins, k)
  }

  lemma OwnTarget(maps: seq<NamedMap>, directory: string, pins: map<string, Handle>, i: nat, k: nat)
    requires i < k < |maps| && OwnTargets(maps, directory, pins, k + 1)
    ensures maps[i].Target(directory) != maps[k].Target(directory)
  {
    PinsWithContents(maps, directory, pins, k, maps[k].Target(directory));
  }

  lemma FewerTargets(maps: seq<NamedMap>, directory: string, pins: map<string, Handle>, n: nat)
    requires 0 < n <= |maps| && OwnTargets(maps, directory, pins, n)
    ensures OwnTargets(maps, directory, pins, n - 1)
    ensures maps[n - 1].Target(directory) !in PinsWith(maps, directory, pins, n - 1)
  {
  }

  lemma SameButOne(m: map<string, Handle>, path: string, other: string, h: Handle)
    requires path != other
    ensures (m - {path})[other := h] == m[other := h] - {path}
  {
  }

  lemma LeftAtFirst(maps: seq<NamedMap>, directory: string, pins: map<string, Handle>, unpins: seq<bool>, n: nat)
    requires n <= |maps| == |unpins|
    ensures PinsLeft(maps, directory, pins, unpins, n, n) == PinsWith(maps, directory, pins, n)
  {
  }

  lemma LeftStep(maps: seq<NamedMap>, directory: string, pins: map<string, Handle>, unpins: seq<bool>, i: nat, n: nat)
    requires i < n <= |maps| == |unpins|
    ensures var rest := PinsLeft(maps, directory, pins, unpins, i, n - 1);
            PinsLeft(maps, directory, pins, unpins, i, n) ==
            if unpins[n - 1] then rest else rest[maps[n - 1].Target(directory) := maps[n - 1].handle]
  {
  }

  /** One step of the walk: map i is unpinned, or stays. */
  lemma {:induction false} WalkStep(maps: seq<NamedMap>, directory: string, pins: map<string, Handle>,
                                    unpins: seq<bool>, i: nat, n: nat)
    requires i < n <= |maps| == |unpins| && OwnTargets(maps, directory, pins, n)
    ensures var was := PinsLeft(maps, directory, pins, unpins, i + 1, n);
            && maps[i].Target(directory) in was
            && PinsLeft(maps, directory, pins, unpins, i, n) == if unpins[i] then was - {maps[i].Target(directory)} else was
    decreases n
  {
    hide PinsLeft, PinsWith, OwnTargets, NamedMap.Target;
    FewerTargets(maps, directory, pins, n);
    var path := maps[i].Target(directory);
    if n == i + 1 {
      FirstStep(maps, directory, pins, unpins, i);
    } else {
      WalkStep(maps, directory, pins, unpins, i, n - 1);
      OwnTarget(maps, directory, pins, i, n - 1);
      LeftStep(maps, directory, pins, unpins, i, n);
      LeftStep(maps, directory, pins, unpins, i + 1, n);
      SameButOne(PinsLeft(maps, directory, pins, unpins, i + 1, n - 1), path, maps[n - 1].Target(directory), maps[n - 1].handle);
    }
  }

  lemma FirstStep(maps: seq<NamedMap>, directory: string, pins: map<string, Handle>, unpins: seq<bool>, i: nat)
    requires i < |maps| == |unpins| && maps[i].Target(directory) !in PinsWith(maps, directory, pins, i)
    ensures var was := PinsLeft(maps, directory, pins, unpins, i + 1, i + 1);
            && maps[i].Target(directory) in was
            && PinsLeft(maps, directory, pins, unpins, i, i + 1) == if unpins[i] then was - {maps[i].Target(directory)} else was
  {
    var rest, path := PinsWith(maps, directory, pins, i), maps[i].Target(directory);
    assert PinsLeft(maps, directory, pins, unpins, i, i) == rest;
    assert rest[path := maps[i].handle] - {path} == rest;
  }

  lemma {:induction false} StillPinned(maps: seq<NamedMap>, directory: string, pins: map<string, Handle>,
                                       unpins: seq<bool>, n: nat, k: nat)
    requires k < n <= |maps| == |unpins| && !unpins[k]
    ensures maps[k].Target(directory) in PinsLeft(maps, directory, pins, unpins, 0, n)
    decreases n
  {
    if k < n - 1 {
      StillPinned(maps, directory, pins, unpins, n - 1, k);
    }
  }

  lemma {:induction false} AllTakenBack(maps: seq<NamedMap>, directory: string, pins: map<string, Handle>,
                                        unpins: seq<bool>, n: nat)
    requires n <= |maps| == |unpins| && forall k :: 0 <= k < n ==> unpins[k]
    ensures PinsLeft(maps, directory, pins, unpins, 0, n) == pins
  {
    if n > 0 {
      AllTakenBack(maps, directory, pins, unpins, n - 1);
    }
  }

  /** The pins are those from before exactly when the kernel refused no unpin of the walk. */
  lemma RestoredExactly(maps: seq<NamedMap>, directory: string, pins: map<string, Handle>, unpins: seq<bool>, n: nat)
    requires n <= |maps| == |unpins| && OwnTargets(maps, directory, pins, n)
    ensures PinsLeft(maps, directory, pins, unpins, 0, n) == pins <==> forall k :: 0 <= k < n ==> unpins[k]
  {
    hide PinsLeft, NamedMap.Target;
    if forall k :: 0 <= k < n ==> unpins[k] {
      AllTakenBack(maps, directory, pins, unpins, n);
    } else {
      var k :| 0 <= k < n && !unpins[k];
      StillPinned(maps, directory, pins, unpins, n, k);
      PinsWithContents(maps, directory, pins, k, maps[k].Target(directory));
    }
  }

  /** All maps are pinned if each one can be. Otherwise the walk back leaves the maps before the first that cannot
      unpinned, but for those whose unpin the kernel refused, and nothing else changes but for recorded paths. */
  ghost predicate Pinned(before: seq<NamedMap>, pinsBefore: map<string, Handle>, directory: string, accepts: seq<bool>,
                         unpins: seq<bool>, maps: seq<NamedMap>, pins: map<string, Handle>, outcome: Outcome)
    requires |accepts| == |unpins| == |before|
  {
    && |maps| == |before|
    && (outcome.Done? <==> forall i :: 0 <= i < |before| ==> CanPin(before, directory, pinsBefore, accepts, i))
    && (outcome.Done? ==>
          && pins == PinsWith(before, directory, pinsBefore, |before|)
          && forall i :: 0 <= i < |maps| ==> maps[i] == before[i].PinnedAt(before[i].Target(directory)))
    && (!outcome.Done? ==> exists n: nat ::
          FirstFailure(before, pinsBefore, directory, accepts, n)
            && TakenBack(before, pinsBefore, directory, unpins, maps, pins, n))
  }

  ghost predicate FirstFailure(before: seq<NamedMap>, pinsBefore: map<string, Handle>, directory: string,
                               accepts: seq<bool>, n: nat)
    requires |accepts| == |before|
  {
    && n < |before| && !CanPin(before, directory, pinsBefore, accepts, n)
    && forall i :: 0 <= i < n ==> CanPin(before, directory, pinsBefore, accepts, i)
  }

  ghost predicate TakenBack(before: seq<NamedMap>, pinsBefore: map<string, Handle>, directory: string, unpins: seq<bool>,
                            maps: seq<NamedMap>, pins: map<string, Handle>, n: nat)
    requires |unpins| == |before|
  {
    && |maps| == |before| && n <= |before|
    && pins == PinsLeft(before, directory, pinsBefore, unpins, 0, n)
    && (forall k :: 0 <= k < n ==> MapLeft(before[k], directory, unpins[k], maps[k]))
    && (forall k :: n <= k < |maps| ==> maps[k].(pinPath := before[k].pinPath) == before[k])
  }

  /** When the kernel refuses no unpin, a call that fails leaves the pins and the state of all maps as before. */
  lemma AllOrNothing(before: seq<NamedMap>, pinsBefore: map<string, Handle>, directory: string, accepts: seq<bool>,
                     unpins: seq<bool>, maps: seq<NamedMap>, pins: map<string, Handle>, outcome: Outcome)
    requires |accepts| == |unpins| == |before| && forall k :: 0 <= k < |unpins| ==> unpins[k]
    requires Pinned(before, pinsBefore, directory, accepts, unpins, maps, pins, outcome) && !outcome.Done?
    ensures pins == pinsBefore && |maps| == |before|
    ensures forall k :: 0 <= k < |maps| ==> maps[k].(pinPath := before[k].pinPath) == before[k]
  {
    var n: nat :| FirstFailure(before, pinsBefore, directory, accepts, n)
                  && TakenBack(before, pinsBefore, directory, unpins, maps, pins, n);
    AllTakenBack(before, directory, pinsBefore, unpins, n);
    forall k | 0 <= k < n ensures maps[k].(pinPath := before[k].pinPath) == before[k] {
      assert MapLeft(before[k], directory, unpins[k], maps[k]);
    }
  }

  lemma AllPinnedIsPinned(before: seq<NamedMap>, pinsBefore: map<string, Handle>, directory: string, accepts: seq<bool>,
                          unpins: seq<bool>, maps: seq<NamedMap>, pins: map<string, Handle>)
    requires |accepts| == |unpins| == |before| == |maps| && SoFar(before, pinsBefore, directory, accepts, maps, pins, |maps|)
    ensures Pinned(before, pinsBefore, directory, accepts, unpins, maps, pins, Done)
  {
  }

  lemma FailedIsPinned(before: seq<NamedMap>, pinsBefore: map<string, Handle>, directory: string, accepts: seq<bool>,
                       unpins: seq<bool>, maps: seq<NamedMap>, pins: map<string, Handle>, outcome: Outcome, i: nat)
    requires |accepts| == |unpins| == |before| && !outcome.Done?
    requires FirstFailure(before, pinsBefore, directory, accepts, i)
             && TakenBack(before, pinsBefore, directory, unpins, maps, pins, i)
    ensures Pinned(before, pinsBefore, directory, accepts, unpins, maps, pins, outcome)
  {
  }

  lemma FailsHere(before: seq<NamedMap>, pinsBefore: map<string, Handle>, directory: string, accepts: seq<bool>,
                  maps: seq<NamedMap>, pins: map<string, Handle>, i: nat)
    requires i < |maps| == |before| == |accepts| && SoFar(before, pinsBefore, directory, accepts, maps, pins, i)
    ensures !CanPin(before, directory, pinsBefore, accepts, i) ==> FirstFailure(before, pinsBefore, directory, accepts, i)
  {
  }

  class PinnedObject {
    var maps: seq<NamedMap>
    var pins: map<string, Handle>

    constructor (maps: seq<NamedMap>, pins: map<string, Handle>)
      ensures this.maps == maps && this.pins == pins
    {
      this.maps, this.pins := maps, pins;
    }

    method MapPin(i: nat, path: string, accepts: bool) returns (ok: bool)
      requires i < |maps|
      modifies this
      ensures ok <==>
        && !old(maps)[i].pinned && (old(maps)[i].pinPath.None? || old(maps)[i].pinPath.value == path)
        && 0 < |path| < MAX_PIN_PATH_LENGTH && path !in old(pins) && accepts
      ensures ok ==> maps == old(maps)[i := old(maps)[i].PinnedAt(path)] && pins == old(pins)[path := old(maps)[i].handle]
      ensures !ok ==> pins == old(pins) && (maps == old(maps) || maps == old(maps)[i := old(maps)[i].(pinPath := Some(path))])
    {
      if maps[i].pinned {
        return false;
      }
      if maps[i].pinPath.Some? && maps[i].pinPath.value != path {
        return false;
      }
      maps := maps[i := maps[i].(pinPath := Some(path))];
      if |path| >= MAX_PIN_PATH_LENGTH || |path| == 0 || path in pins || !accepts {
        return false;
      }
      pins := pins[path := maps[i].handle];
      maps := maps[i := maps[i].(pinned := true)];
      return true;
    }

    /** The given path must be that of the map, if it has one; the kernel must know the path and take the request. */
    method MapUnpin(i: nat, path: Option<string>, accepts: bool) returns (ok: bool)
      requires i < |maps|
      modifies this
      ensures
        var m := old(maps)[i];
        var at := if m.pinPath.Some? then m.pinPath else path;
        && (ok <==> at.Some? && (path.None? || path == at) && at.value in old(pins) && accepts)
        && (ok ==> maps == old(maps)[i := m.(pinned := false)] && pins == old(pins) - {at.value})
        && (!ok ==> maps == old(maps) && pins == old(pins))
    {
      if maps[i].pinPath.Some? && path.Some? && path.value != maps[i].pinPath.value {
        return false;
      }
      var at := if maps[i].pinPath.Some? then maps[i].pinPath else path;
      if at.None? || at.value !in pins || !accepts {
        return false;
      }
      pins := pins - {at.value};
      maps := maps[i := maps[i].(pinned := false)];
      return true;
    }

    /** Pins every map, or takes the pins back. Without a directory nothing is done. The kernel's answers to pins and
        unpins are given per map. */
    method PinAll(directory: Option<string>, accepts: seq<bool>, unpins: seq<bool>) returns (outcome: Outcome)
      requires |accepts| == |unpins| == |maps|
      modifies this
      ensures directory.None? ==> outcome == Done && maps == old(maps) && pins == old(pins)
      ensures directory.Some? ==> Pinned(old(maps), old(pins), directory.value, accepts, unpins, maps, pins, outcome)
    {
      if directory.None? {
        return Done;
      }
      hide Pinned, SoFar, FirstPinned, TakenBack, FirstFailure, CanPin;
      ghost var before, pinsBefore := maps, pins;
      NonePinned(before, directory.value, accepts, pinsBefore);
      var i: nat := 0;
      while i < |maps|
        invariant i <= |maps| == |before|
        invariant SoFar(before, pinsBefore, directory.value, accepts, maps, pins, i)
      {
        FailsHere(before, pinsBefore, directory.value, accepts, maps, pins, i);
        outcome := PinNext(i, directory.value, accepts, unpins, before, pinsBefore);
        if !outcome.Done? {
          FailedIsPinned(before, pinsBefore, directory.value, accepts, unpins, maps, pins, outcome, i);
          return;
        }
        i := i + 1;
      }
      AllPinnedIsPinned(before, pinsBefore, directory.value, accepts, unpins, maps, pins);
      return Done;
    }

    /** Pins map i, or undoes the pins of the maps before it. */
    method PinNext(i: nat, directory: string, accepts: seq<bool>, unpins: seq<bool>, ghost before: seq<NamedMap>,
                   ghost pinsBefore: map<string, Handle>)
      returns (outcome: Outcome)
      requires i < |maps| == |before| == |accepts| == |unpins| && SoFar(before, pinsBefore, directory, accepts, maps, pins, i)
      modifies this
      ensures |maps| == |before|
      ensures outcome.Done? <==> CanPin(before, directory, pinsBefore, accepts, i)
      ensures outcome.Done? ==> SoFar(before, pinsBefore, directory, accepts, maps, pins, i + 1)
      ensures !outcome.Done? ==> TakenBack(before, pinsBefore, directory, unpins, maps, pins, i)
    {
      hide FirstPinned, PinsWith, NamedMap.Target, PinsLeft, MapLeft;
      FirstPinnedMeans(before, pinsBefore, directory, maps, pins, i);
      var path := maps[i].Target(directory);
      TargetNotEmpty(maps[i], directory);
      if |path| >= PATH_MAX {
        RollBack(i, directory, unpins, before, pinsBefore);
        return NameTooLong;
      }
      ghost var was := maps;
      var ok := MapPin(i, path, accepts[i]);
      if !ok {
        SameFirst(before, pinsBefore, directory, was, maps, pins, i);
        RollBack(i, directory, unpins, before, pinsBefore);
        return PinFailed;
      }
      OneMorePinned(before, pinsBefore, directory, was, maps, i);
      return Done;
    }

    /** The walk back over the maps before the one that failed; a refused unpin does not end it. */
    method RollBack(failed: nat, directory: string, unpins: seq<bool>, ghost before: seq<NamedMap>,
                    ghost pinsBefore: map<string, Handle>)
      requires failed <= |maps| == |before| == |unpins|
      requires FirstPinned(before, pinsBefore, directory, maps, pins, failed)
      modifies this
      ensures |maps| == |before| && pins == PinsLeft(before, directory, pinsBefore, unpins, 0, failed)
      ensures forall k :: 0 <= k < failed ==> MapLeft(before[k], directory, unpins[k], maps[k])
      ensures forall k :: failed <= k < |maps| ==> maps[k] == old(maps)[k]
    {
      FirstPinnedMeans(before, pinsBefore, directory, maps, pins, failed);
      LeftAtFirst(before, directory, pinsBefore, unpins, failed);
      NotYetWalked(before, directory, unpins, maps, failed);
      hide FirstPinned, PinsWith, PinsLeft, OwnTargets, Walking, NamedMap.Target;
      var i: nat := failed;
      while i > 0
        invariant i <= failed <= |maps| == |before|
        invariant pins == PinsLeft(before, directory, pinsBefore, unpins, i, failed)
        invariant Walking(before, directory, unpins, old(maps), maps, i, failed)
      {
        i := i - 1;
        UnpinPrevious(i, directory, unpins, before, pinsBefore, old(maps), failed);
      }
      Walked(before, directory, unpins, old(maps), maps, failed);
    }

    method UnpinPrevious(i: nat, directory: string, unpins: seq<bool>, ghost before: seq<NamedMap>,
                         ghost pinsBefore: map<string, Handle>,
                         ghost first: seq<NamedMap>, ghost failed: nat)
      requires i < failed <= |maps| == |before| == |unpins| && OwnTargets(before, directory, pinsBefore, failed)
      requires pins == PinsLeft(before, directory, pinsBefore, unpins, i + 1, failed)
      requires Walking(before, directory, unpins, first, maps, i + 1, failed)
      modifies this
      ensures |maps| == |before| && pins == PinsLeft(before, directory, pinsBefore, unpins, i, failed)
      ensures Walking(before, directory, unpins, first, maps, i, failed)
    {
      hide PinsLeft, PinsWith, OwnTargets, NamedMap.Target;
      WalkStep(before, directory, pinsBefore, unpins, i, failed);
      var _ := MapUnpin(i, None, unpins[i]);
    }

    /** Unpins the maps in turn and stops at the first that cannot be unpinned; there is no rollback here. */
    method UnpinAll(directory: Option<string>, accepts: seq<bool>) returns (outcome: Outcome, ghost done: nat)
      requires |accepts| == |maps|
      modifies this
      ensures done <= |maps| == |old(maps)|
      ensures outcome.Done? <==> directory.None? || done == |maps|
      ensures directory.Some? ==>
        && (forall i :: 0 <= i < done ==> CanUnpin(old(maps), directory.value, old(pins), i) && accepts[i])
        && (done < |maps| ==> !(CanUnpin(old(maps), directory.value, old(pins), done) && accepts[done]))
        && pins == old(pins) - Targets(old(maps), directory.value, done)
        && (forall i :: 0 <= i < done ==> maps[i] == old(maps)[i].(pinned := false))
        && (forall i :: done <= i < |maps| ==> maps[i] == old(maps)[i])
      ensures directory.None? ==> maps == old(maps) && pins == old(pins)
    {
      done := 0;
      if directory.None? {
        return Done, 0;
      }
      ghost var before, pinsBefore := maps, pins;
      var i: nat := 0;
      while i < |maps|
        invariant i <= |maps| == |before| && done == i
        invariant pins == pinsBefore - Targets(before, directory.value, i)
        invariant forall k :: 0 <= k < i ==> CanUnpin(before, directory.value, pinsBefore, k) && accepts[k]
        invariant forall k :: 0 <= k < i ==> maps[k] == before[k].(pinned := false)
        invariant forall k :: i <= k < |maps| ==> maps[k] == before[k]
      {
        var path := maps[i].Target(directory.value);
        if |path| >= PATH_MAX {
          return NameTooLong, i;
        }
        var ok := MapUnpin(i, Some(path), accepts[i]);
        if !ok {
          return PinFailed, i;
        }
        i := i + 1;
        done := i;
      }
      return Done, i;
    }
  }

  function Targets(maps: seq<NamedMap>, directory: string, n: nat): set<string>
    requires n <= |maps|
  {
    if n == 0 then {} else Targets(maps, directory, n - 1) + {maps[n - 1].Target(directory)}
  }

  /** Map i can be unpinned after the maps before it. */
  predicate CanUnpin(maps: seq<NamedMap>, directory: string, pins: map<string, Handle>, i: nat)
    requires i < |maps|
  {
    var path := maps[i].Target(directory);
    && |path| < PATH_MAX && (maps[i].pinPath.None? || maps[i].pinPath.value == path)
    && path in pins && path !in Targets(maps, directory, i)
  }

  /** Unpinning undoes pinning: it can unpin every map, and the pins are those from before. */
  lemma UnpinUndoesPin(maps: seq<NamedMap>, directory: string, pins: map<string, Handle>, accepts: seq<bool>,
                       pinned: seq<NamedMap>)
    requires |accepts| == |maps| == |pinned|
    requires forall i :: 0 <= i < |maps| ==> CanPin(maps, directory, pins, accepts, i)
    requires forall i :: 0 <= i < |maps| ==> pinned[i] == maps[i].PinnedAt(maps[i].Target(directory))
    ensures PinsWith(maps, directory, pins, |maps|) - Targets(pinned, directory, |maps|) == pins
    ensures forall i :: 0 <= i < |maps| ==> CanUnpin(pinned, directory, PinsWith(maps, directory, pins, |maps|), i)
  {
    PinnableExactly(maps, directory, pins, accepts);
    TargetsRemoved(maps, directory, pins, |maps|, pinned);
    forall i | 0 <= i < |maps| ensures CanUnpin(pinned, directory, PinsWith(maps, directory, pins, |maps|), i) {
      PinsWithContents(maps, directory, pins, |maps|, maps[i].Target(directory));
      TargetsContents(pinned, directory, i, maps[i].Target(directory));
    }
  }

  lemma {:induction false} TargetsContents(maps: seq<NamedMap>, directory: string, n: nat, p: string)
    requires n <= |maps|
    ensures p in Targets(maps, directory, n) <==> exists i :: 0 <= i < n && maps[i].Target(directory) == p
  {
    if n > 0 {
      TargetsContents(maps, directory, n - 1, p);
    }
  }

  lemma {:induction false} TargetsRemoved(maps: seq<NamedMap>, directory: string, pins: map<string, Handle>, n: nat,
                                          pinned: seq<NamedMap>)
    requires n <= |maps| == |pinned|
    requires forall i :: 0 <= i < n ==> maps[i].Target(directory) !in pins && pinned[i].name == maps[i].name
    ensures PinsWith(maps, directory, pins, n) - Targets(pinned, directory, n) == pins
  {
    if n > 0 {
      TargetsRemoved(maps, directory, pins, n - 1, pinned);
      var inner, targets := PinsWith(maps, directory, pins, n - 1), Targets(pinned, directory, n - 1);
      var path := maps[n - 1].Target(directory);
      assert pinned[n - 1].Target(directory) == path;
      assert inner[path := maps[n - 1].handle] - (targets + {path}) == (inner - targets) - {path};
    }
  }
}

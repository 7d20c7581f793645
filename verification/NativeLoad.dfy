/** Who owns the handles that the kernel returns when a native module is loaded. A log records every close. On every
    exit each handle has been closed once, or belongs to one map, program or object: for an arbitrary handle h, the
    number of its closes and of its owners together is the number of times it was given. */
module NativeLoad {

  const INVALID := -1

  /** An entry of a handle array that stands for a handle: not the invalid value, and not the zero of fresh memory. */
  predicate IsHandle(h: int) {
    h != INVALID && h != 0
  }

  /** How often handle h is in an array, in a list of owners or in the log of closes. */
  function Count(handles: seq<int>, h: int): nat {
    if handles == [] then 0 else (if handles[0] == h then 1 else 0) + Count(handles[1..], h)
  }

  function One(b: bool): nat {
    if b then 1 else 0
  }

  lemma {:induction false} CountWithout(handles: seq<int>, i: nat, h: int)
    requires i < |handles| && IsHandle(h)
    ensures Count(handles, h) == Count(handles[i := INVALID], h) + One(handles[i] == h)
  {
    var after := handles[i := INVALID];
    if i == 0 {
      assert after[1..] == handles[1..];
    } else {
      assert after[1..] == handles[1..][i - 1 := INVALID];
      CountWithout(handles[1..], i - 1, h);
    }
  }

  lemma {:induction false} CountAppend(handles: seq<int>, g: int, h: int)
    ensures Count(handles + [g], h) == Count(handles, h) + One(g == h)
  {
    if handles == [] {
      assert handles + [g] == [g];
      assert Count([g], h) == One(g == h) + Count([], h);
    } else {
      assert (handles + [g])[1..] == handles[1..] + [g];
      CountAppend(handles[1..], g, h);
    }
  }

  lemma {:induction false} NoneCounted(handles: seq<int>, h: int)
    requires IsHandle(h) && forall i :: 0 <= i < |handles| ==> handles[i] == INVALID
    ensures Count(handles, h) == 0
  {
    if handles != [] {
      NoneCounted(handles[1..], h);
    }
  }

  /** What the kernel and the runtime answer for each map or program: the query of its information, and the creation of
      a file descriptor. */
  datatype Answers = Answers(known: seq<bool>, descriptors: seq<bool>)

  /** Closes every handle in a list: of the programs or maps that are cleaned up, or left over in a handle array. */
  method CloseAll(handles: seq<int>, closed: seq<int>, ghost h: int) returns (after: seq<int>)
    requires IsHandle(h)
    ensures Count(after, h) == Count(closed, h) + Count(handles, h)
    ensures closed <= after && forall i :: |closed| <= i < |after| ==> after[i] != -1 && after[i] != 0
  {
    after := closed;
    assert handles[..0] == [];
    hide Count;
    for i := 0 to |handles|
      invariant Count(after, h) == Count(closed, h) + Count(handles[..i], h)
      invariant closed <= after && forall i :: |closed| <= i < |after| ==> after[i] != -1 && after[i] != 0
    {
      CountAppend(handles[..i], handles[i], h);
      assert handles[..i + 1] == handles[..i] + [handles[i]];
      if IsHandle(handles[i]) {
        CountAppend(after, handles[i], h);
        after := after + [handles[i]];
      }
    }
    assert handles[..|handles|] == handles;
  }

  /** Takes a handle out of the array. */
  method Take(handles: array<int>, i: nat, ghost h: int) returns (taken: int)
    requires i < handles.Length && IsHandle(h)
    modifies handles
    ensures taken == old(handles[i]) && handles[i] == INVALID
    ensures forall k :: 0 <= k < handles.Length && k != i ==> handles[k] == old(handles[k])
    ensures Count(handles[..], h) + One(taken == h) == Count(old(handles[..]), h)
  {
    CountWithout(handles[..], i, h);
    taken := handles[i];
    handles[i] := INVALID;
    assert handles[..] == old(handles[..])[i := INVALID];
  }

  /** Moves handles from the array to the programs; a program that is not loaded automatically gives its handle back. */
  method InitializePrograms(handles: array<int>, autoload: seq<bool>, answers: Answers, closed: seq<int>, ghost h: int)
    returns (ok: bool, programs: seq<int>, after: seq<int>)
    requires |autoload| == |answers.known| == |answers.descriptors| == handles.Length && IsHandle(h)
    modifies handles
    ensures Count(after, h) + Count(handles[..], h) + Count(programs, h) == Count(closed, h) + Count(old(handles[..]), h)
    ensures !ok ==> programs == []
    ensures ok <==> forall i :: 0 <= i < handles.Length && autoload[i] ==>
      old(handles[i]) != INVALID && answers.known[i] && answers.descriptors[i]
    ensures ok ==>
      && |programs| == handles.Length
      && forall i :: 0 <= i < handles.Length ==>
           handles[i] == INVALID && programs[i] == if autoload[i] then old(handles[i]) else INVALID
  {
    programs, after := [], closed;
    hide Count;
    CountNothing(h);
    for i := 0 to handles.Length
      invariant |programs| == i
      invariant Count(after, h) + Count(handles[..], h) + Count(programs, h) == Count(closed, h) + Count(old(handles[..]), h)
      invariant forall k :: 0 <= k < i ==>
        handles[k] == INVALID && programs[k] == if autoload[k] then old(handles[k]) else INVALID
      invariant forall k :: i <= k < handles.Length ==> handles[k] == old(handles[k])
      invariant forall k :: 0 <= k < i && autoload[k] ==>
        old(handles[k]) != INVALID && answers.known[k] && answers.descriptors[k]
    {
      if autoload[i] && (handles[i] == INVALID || !answers.known[i] || !answers.descriptors[i]) {
        after := CloseAll(programs, after, h);
        return false, [], after;
      }
      var taken := Take(handles, i, h);
      CountAppend(programs, if autoload[i] then taken else INVALID, h);
      if autoload[i] {
        programs := programs + [taken];
      } else {
        programs := programs + [INVALID];
        if taken != INVALID {
          CountAppend(after, taken, h);
          after := after + [taken];
        }
      }
    }
    return true, programs, after;
  }

  lemma CountNothing(h: int)
    ensures Count([], h) == 0
  {
  }

  /** Moves handles from the array to the maps. */
  method InitializeMaps(handles: array<int>, answers: Answers, closed: seq<int>, ghost h: int)
    returns (ok: bool, maps: seq<int>, after: seq<int>)
    requires |answers.known| == |answers.descriptors| == handles.Length && IsHandle(h)
    modifies handles
    ensures Count(after, h) + Count(handles[..], h) + Count(maps, h) == Count(closed, h) + Count(old(handles[..]), h)
    ensures !ok ==> maps == []
    ensures ok <==> forall i :: 0 <= i < handles.Length ==>
      old(handles[i]) != INVALID && answers.known[i] && answers.descriptors[i]
    ensures ok ==> maps == old(handles[..]) && forall i :: 0 <= i < handles.Length ==> handles[i] == INVALID
  {
    maps, after := [], closed;
    hide Count;
    CountNothing(h);
    for i := 0 to handles.Length
      invariant |maps| == i && after == closed
      invariant Count(handles[..], h) + Count(maps, h) == Count(old(handles[..]), h)
      invariant forall k :: 0 <= k < i ==> handles[k] == INVALID && maps[k] == old(handles[k])
      invariant forall k :: i <= k < handles.Length ==> handles[k] == old(handles[k])
      invariant forall k :: 0 <= k < i ==> old(handles[k]) != INVALID && answers.known[k] && answers.descriptors[k]
    {
      if handles[i] == INVALID || !answers.known[i] || !answers.descriptors[i] {
        after := CloseAll(maps, after, h);
        return false, [], after;
      }
      var taken := Take(handles, i, h);
      CountAppend(maps, taken, h);
      maps := maps + [taken];
    }
    return true, maps, after;
  }

  /** The object after the load: the handles that its maps, its programs and it itself own. */
  datatype Object = Object(maps: seq<int>, programs: seq<int>, moduleHandle: int)

  /** What happens during a load: the module handle and whether it gets a descriptor; whether memory for the arrays is
      there; the handles of the kernel's reply, if the call succeeds; the answers for programs and maps. */
  datatype Environment = Environment(moduleHandle: int, moduleDescriptor: bool, memory: bool, reply: bool,
                                     mapHandles: seq<int>, programHandles: seq<int>,
                                     programAnswers: Answers, mapAnswers: Answers)
  {
    predicate Replies() {
      moduleDescriptor && memory && reply
    }
  }

  ghost predicate Consistent(env: Environment, countOfMaps: nat, autoload: seq<bool>) {
    && |env.mapHandles| == |env.mapAnswers.known| == |env.mapAnswers.descriptors| == countOfMaps
    && |env.programHandles| == |env.programAnswers.known| == |env.programAnswers.descriptors| == |autoload|
  }

  /** How often handle h has been given to the process. */
  ghost function Given(env: Environment, h: int): nat {
    One(env.moduleHandle == h) + if env.Replies() then Count(env.mapHandles, h) + Count(env.programHandles, h) else 0
  }

  ghost function Owners(loaded: Object, h: int): nat {
    Count(loaded.maps, h) + Count(loaded.programs, h) + One(loaded.moduleHandle == h)
  }

  /** All programs that are to be loaded, and all maps, get their handle. */
  ghost predicate AllUsable(env: Environment, countOfMaps: nat, autoload: seq<bool>)
    requires Consistent(env, countOfMaps, autoload)
  {
    && (forall i :: 0 <= i < |autoload| && autoload[i] ==>
          env.programHandles[i] != INVALID && env.programAnswers.known[i] && env.programAnswers.descriptors[i])
    && (forall i :: 0 <= i < countOfMaps ==>
          env.mapHandles[i] != INVALID && env.mapAnswers.known[i] && env.mapAnswers.descriptors[i])
  }

  /** Hands the handles to the programs and then to the maps of the object; if that fails, what they got is closed. */
  method InitializeObject(mapHandles: array<int>, programHandles: array<int>, autoload: seq<bool>,
                          mapAnswers: Answers, programAnswers: Answers, ghost h: int)
    returns (ok: bool, maps: seq<int>, programs: seq<int>, closed: seq<int>)
    requires mapHandles != programHandles && IsHandle(h)
    requires |autoload| == |programAnswers.known| == |programAnswers.descriptors| == programHandles.Length
    requires |mapAnswers.known| == |mapAnswers.descriptors| == mapHandles.Length
    modifies mapHandles, programHandles
    ensures !ok ==> Count(closed, h) + Count(mapHandles[..], h) + Count(programHandles[..], h) ==
                    Count(old(mapHandles[..]), h) + Count(old(programHandles[..]), h)
    ensures ok ==> Count(closed, h) + Count(maps, h) + Count(programs, h) ==
                   Count(old(mapHandles[..]), h) + Count(old(programHandles[..]), h)
    ensures ok <==>
      && (forall i :: 0 <= i < |autoload| && autoload[i] ==>
            old(programHandles[i]) != INVALID && programAnswers.known[i] && programAnswers.descriptors[i])
      && (forall i :: 0 <= i < mapHandles.Length ==>
            old(mapHandles[i]) != INVALID && mapAnswers.known[i] && mapAnswers.descriptors[i])
    ensures ok ==>
      && maps == old(mapHandles[..]) && |programs| == |autoload|
      && forall i :: 0 <= i < |autoload| ==> programs[i] == if autoload[i] then old(programHandles[i]) else INVALID
  {
    CountNothing(h);
    hide Count;
    maps := [];
    ok, programs, closed := InitializePrograms(programHandles, autoload, programAnswers, [], h);
    if !ok {
      return;
    }
    NoneCounted(programHandles[..], h);
    ok, maps, closed := InitializeMaps(mapHandles, mapAnswers, closed, h);
    if !ok {
      closed := CloseAll(programs, closed, h);
      return;
    }
    NoneCounted(mapHandles[..], h);
  }

  /** Loads a native module whose numbers of maps and programs are as expected. */
  method LoadNative(env: Environment, countOfMaps: nat, autoload: seq<bool>, ghost h: int)
    returns (ok: bool, loaded: Object, closed: seq<int>)
    requires Consistent(env, countOfMaps, autoload) && IsHandle(h)
    ensures Count(closed, h) + Owners(loaded, h) == Given(env, h)
    ensures ok <==> env.moduleDescriptor && env.memory && env.reply && AllUsable(env, countOfMaps, autoload)
    ensures !ok ==> loaded == Object([], [], INVALID)
    ensures ok ==>
      && loaded.maps == env.mapHandles && loaded.moduleHandle == env.moduleHandle
      && |loaded.programs| == |autoload|
      && forall i :: 0 <= i < |autoload| ==> loaded.programs[i] == if autoload[i] then env.programHandles[i] else INVALID
  {
    loaded := Object([], [], INVALID);
    if !env.Replies() {
      return false, loaded, [env.moduleHandle];
    }
    CountNothing(h);
    hide Count;
    var mapHandles := new int[countOfMaps](i requires 0 <= i < countOfMaps => env.mapHandles[i]);
    var programHandles := new int[|autoload|](i requires 0 <= i < |autoload| => env.programHandles[i]);
    assert mapHandles[..] == env.mapHandles && programHandles[..] == env.programHandles;
    var maps, programs;
    ok, maps, programs, closed :=
      InitializeObject(mapHandles, programHandles, autoload, env.mapAnswers, env.programAnswers, h);
    if !ok {
      closed := CloseAll(mapHandles[..], closed, h);
      closed := CloseAll(programHandles[..], closed, h);
      CountAppend(closed, env.moduleHandle, h);
      return false, loaded, closed + [env.moduleHandle];
    }
    loaded := Object(maps, programs, env.moduleHandle);
  }
}

/** The linked structures of the blocked-connection store and the invariants that tie them
    together: an AVL table, an LRU list threaded through the table's nodes, a pool of
    preallocated contexts and the low-memory list made of pool contexts.

    Memory is explicit: `memory` maps the addresses of the live allocations to their contents. */
module StoreShape {
  import opened ConnectionContexts

  type Address = nat

  /** The linked structures of the store. Lists run from head to tail. */
  datatype Shape = Shape(memory: map<Address, Context>, table: map<Key, Address>, lru: seq<Address>,
                         freeList: seq<Address>, lowBlocked: seq<Address>)

  ghost predicate NoDuplicates(s: seq<Address>) {
    forall i, j :: 0 <= i < j < |s| ==> s[i] != s[j]
  }

  /** Every allocation is in exactly one list, once. */
  ghost predicate Owned(s: Shape) {
    && NoDuplicates(s.lru) && NoDuplicates(s.lowBlocked) && NoDuplicates(s.freeList)
    && (forall a :: a in s.lru ==> a !in s.lowBlocked && a !in s.freeList)
    && (forall a :: a in s.lowBlocked ==> a !in s.freeList)
    && (forall a :: a in s.memory <==> a in s.lru || a in s.lowBlocked || a in s.freeList)
  }

  /** The LRU list holds exactly the table's nodes. */
  ghost predicate Threaded(s: Shape) {
    && (forall k :: k in s.table ==> s.table[k] in s.lru && s.table[k] in s.memory && s.memory[s.table[k]].key == k)
    && (forall a :: a in s.lru ==> a in s.memory && s.memory[a].key in s.table && s.table[s.memory[a].key] == a)
  }

  ghost predicate DistinctKeys(memory: map<Address, Context>, list: seq<Address>) {
    && (forall a :: a in list ==> a in memory)
    && (forall i, j :: 0 <= i < j < |list| ==> memory[list[i]].key != memory[list[j]].key)
  }

  /** A key occurs at most once across table and low-memory list. */
  ghost predicate UniqueKeys(s: Shape) {
    && DistinctKeys(s.memory, s.lowBlocked)
    && (forall a :: a in s.lowBlocked ==> s.memory[a].key !in s.table)
  }

  ghost predicate NewestFirst(memory: map<Address, Context>, list: seq<Address>) {
    && (forall a :: a in list ==> a in memory)
    && (forall i, j :: 0 <= i < j < |list| ==> memory[list[i]].timestamp >= memory[list[j]].timestamp)
  }

  ghost predicate Linked(s: Shape) {
    Owned(s) && Threaded(s) && UniqueKeys(s) && NewestFirst(s.memory, s.lowBlocked)
  }

  ghost function TableView(s: Shape): map<Key, Stamp>
    requires Threaded(s)
  {
    map k | k in s.table :: s.memory[s.table[k]].timestamp
  }

  /** The keys of the LRU list. */
  ghost function KeyList(memory: map<Address, Context>, list: seq<Address>): seq<Key>
    requires forall a :: a in list ==> a in memory
  {
    seq(|list|, i requires 0 <= i < |list| => memory[list[i]].key)
  }

  /** The entries of a list of contexts, by key. */
  ghost function Entries(memory: map<Address, Context>, list: seq<Address>): map<Key, Stamp>
    requires forall a :: a in list ==> a in memory
  {
    if list == [] then map[]
    else Entries(memory, list[1..])[memory[list[0]].key := memory[list[0]].timestamp]
  }

  ghost function AsView(s: Shape): View
    requires Linked(s)
  {
    View(TableView(s), KeyList(s.memory, s.lru), Entries(s.memory, s.lowBlocked))
  }

  // ---- unlinking one entry ----

  function Unlink(s: seq<Address>, i: nat): (r: seq<Address>)
    requires i < |s|
    ensures |r| == |s| - 1
  {
    s[..i] + s[i + 1..]
  }

  lemma UnlinkMembers(s: seq<Address>, i: nat)
    requires i < |s| && NoDuplicates(s)
    ensures NoDuplicates(Unlink(s, i))
    ensures forall a :: a in Unlink(s, i) <==> a in s && a != s[i]
  {
  }

  lemma UnlinkNewestFirst(memory: map<Address, Context>, s: seq<Address>, i: nat)
    requires i < |s| && NewestFirst(memory, s)
    ensures NewestFirst(memory, Unlink(s, i))
  {
  }

  lemma FreeNewestFirst(memory: map<Address, Context>, s: seq<Address>, a: Address)
    requires NewestFirst(memory, s) && a !in s
    ensures NewestFirst(memory - {a}, s)
  {
  }

  lemma {:induction false} EntriesKeys(memory: map<Address, Context>, list: seq<Address>)
    requires forall a :: a in list ==> a in memory
    ensures forall k :: k in Entries(memory, list) ==> exists i :: 0 <= i < |list| && memory[list[i]].key == k
    ensures forall i :: 0 <= i < |list| ==> memory[list[i]].key in Entries(memory, list)
  {
    if list != [] {
      EntriesKeys(memory, list[1..]);
      forall k | k in Entries(memory, list) ensures exists i :: 0 <= i < |list| && memory[list[i]].key == k {
        if k == memory[list[0]].key {
        } else {
          var i :| 0 <= i < |list[1..]| && memory[list[1..][i]].key == k;
          assert memory[list[i + 1]].key == k;
        }
      }
    }
  }

  lemma UpdateThenRemove(m: map<Key, Stamp>, k: Key, t: Stamp, other: Key)
    requires k != other
    ensures (m - {other})[k := t] == m[k := t] - {other}
  {
  }

  lemma UpdateThenRemoveSame(m: map<Key, Stamp>, k: Key, t: Stamp)
    requires k !in m
    ensures m[k := t] - {k} == m
  {
  }

  lemma {:induction false} EntriesUnlink(memory: map<Address, Context>, list: seq<Address>, i: nat)
    requires DistinctKeys(memory, list) && i < |list|
    ensures Entries(memory, Unlink(list, i)) == Entries(memory, list) - {memory[list[i]].key}
  {
    var first, rest := memory[list[0]], Entries(memory, list[1..]);
    if i == 0 {
      assert Unlink(list, 0) == list[1..];
      EntriesKeys(memory, list[1..]);
      UpdateThenRemoveSame(rest, first.key, first.timestamp);
    } else {
      assert list[1..][i - 1] == list[i];
      EntriesUnlink(memory, list[1..], i - 1);
      assert Unlink(list, i)[1..] == Unlink(list[1..], i - 1);
      UpdateThenRemove(rest, first.key, first.timestamp, memory[list[i]].key);
    }
  }

  lemma {:induction false} EntriesFrame(memory: map<Address, Context>, other: map<Address, Context>, list: seq<Address>)
    requires forall a :: a in list ==> a in memory && a in other && memory[a] == other[a]
    ensures Entries(memory, list) == Entries(other, list)
  {
    if list != [] {
      EntriesFrame(memory, other, list[1..]);
    }
  }

  lemma {:induction false} EntriesSize(memory: map<Address, Context>, list: seq<Address>)
    requires DistinctKeys(memory, list)
    ensures |Entries(memory, list)| == |list|
  {
    if list != [] {
      EntriesSize(memory, list[1..]);
      EntriesKeys(memory, list[1..]);
      var k := memory[list[0]].key;
      assert k !in Entries(memory, list[1..]);
      assert Entries(memory, list).Keys == Entries(memory, list[1..]).Keys + {k};
    }
  }

  // ---- removing a table node: off the LRU list, out of the table, freed ----

  function NodeRemoved(s: Shape, i: nat): (r: Shape)
    requires i < |s.lru| && s.lru[i] in s.memory
  {
    s.(memory := s.memory - {s.lru[i]}, table := s.table - {s.memory[s.lru[i]].key}, lru := Unlink(s.lru, i))
  }

  lemma NodeRemovedOwned(s: Shape, i: nat)
    requires Owned(s) && i < |s.lru|
    ensures s.lru[i] in s.memory && Owned(NodeRemoved(s, i))
  {
  }

  lemma NodeRemovedThreaded(s: Shape, i: nat)
    requires Owned(s) && Threaded(s) && i < |s.lru|
    ensures Threaded(NodeRemoved(s, i))
  {
  }

  lemma NodeRemovedUniqueKeys(s: Shape, i: nat)
    requires Owned(s) && UniqueKeys(s) && i < |s.lru|
    ensures s.lru[i] in s.memory && UniqueKeys(NodeRemoved(s, i))
  {
  }

  lemma NodeRemovedNewestFirst(s: Shape, i: nat)
    requires Owned(s) && NewestFirst(s.memory, s.lowBlocked) && i < |s.lru|
    ensures NewestFirst(NodeRemoved(s, i).memory, s.lowBlocked)
  {
  }

  lemma NodeRemovedTableView(s: Shape, i: nat)
    requires Threaded(s) && i < |s.lru|
    requires Threaded(NodeRemoved(s, i))
    ensures TableView(NodeRemoved(s, i)) == TableView(s) - {s.memory[s.lru[i]].key}
  {
  }

  lemma KeysDistinct(s: Shape)
    requires Owned(s) && Threaded(s)
    ensures forall i, j :: 0 <= i < j < |s.lru| ==> KeyList(s.memory, s.lru)[i] != KeyList(s.memory, s.lru)[j]
  {
    forall i, j | 0 <= i < j < |s.lru| ensures KeyList(s.memory, s.lru)[i] != KeyList(s.memory, s.lru)[j] {
      assert s.lru[i] in s.lru && s.lru[j] in s.lru;
    }
  }

  lemma NodeRemovedKeyList(s: Shape, i: nat)
    requires Owned(s) && Threaded(s) && i < |s.lru| && Threaded(NodeRemoved(s, i))
    ensures KeyList(NodeRemoved(s, i).memory, NodeRemoved(s, i).lru) ==
            Removed(KeyList(s.memory, s.lru), s.memory[s.lru[i]].key)
  {
    KeysDistinct(s);
    var keys := KeyList(s.memory, s.lru);
    RemovedOnce(keys, i);
    KeyListUnlink(s.memory, NodeRemoved(s, i).memory, s.lru, i);
    hide Removed, KeyList, Unlink;
  }

  lemma KeyListUnlink(memory: map<Address, Context>, other: map<Address, Context>, list: seq<Address>, i: nat)
    requires i < |list| && forall a :: a in list ==> a in memory
    requires forall a :: a in Unlink(list, i) ==> a in memory && a in other && other[a] == memory[a]
    ensures KeyList(other, Unlink(list, i)) == KeyList(memory, list)[..i] + KeyList(memory, list)[i + 1..]
  {
    var rest := Unlink(list, i);
    forall j | 0 <= j < |rest| ensures other[rest[j]] == memory[rest[j]] {
      assert rest[j] in rest;
    }
  }

  /** The order of the table lists its keys. */
  lemma LinkedListed(s: Shape)
    requires Linked(s)
    ensures AsView(s).Listed()
  {
    KeysDistinct(s);
    var keys := KeyList(s.memory, s.lru);
    forall k | k in s.table ensures k in keys {
      var i :| 0 <= i < |s.lru| && s.lru[i] == s.table[k];
      assert keys[i] == k;
    }
    forall k | k in keys ensures k in s.table {
      var i :| 0 <= i < |keys| && keys[i] == k;
      assert s.lru[i] in s.lru;
    }
  }

  /** A key that is not in the table is not on the LRU list. */
  lemma KeyListAbsent(s: Shape, k: Key)
    requires Threaded(s) && k !in s.table
    ensures Removed(KeyList(s.memory, s.lru), k) == KeyList(s.memory, s.lru)
  {
    var keys := KeyList(s.memory, s.lru);
    forall i | 0 <= i < |keys| ensures keys[i] != k {
      assert s.lru[i] in s.lru;
    }
    RemovedAbsent(keys, k);
  }

  lemma NodeRemovedEntries(s: Shape, i: nat)
    requires Threaded(s) && UniqueKeys(s) && i < |s.lru| && s.lru[i] !in s.lowBlocked
    ensures Entries(NodeRemoved(s, i).memory, s.lowBlocked) == Entries(s.memory, s.lowBlocked) - {s.memory[s.lru[i]].key}
  {
    var k := s.memory[s.lru[i]].key;
    EntriesFrame(s.memory, NodeRemoved(s, i).memory, s.lowBlocked);
    EntriesKeys(s.memory, s.lowBlocked);
    assert k in s.table;
    assert k !in Entries(s.memory, s.lowBlocked);
  }

  lemma NodeRemovedLinked(s: Shape, i: nat)
    requires Linked(s) && i < |s.lru|
    ensures s.lru[i] in s.memory && Linked(NodeRemoved(s, i))
    ensures AsView(NodeRemoved(s, i)) == AsView(s).Without(s.memory[s.lru[i]].key)
  {
    NodeRemovedOwned(s, i);
    NodeRemovedThreaded(s, i);
    NodeRemovedUniqueKeys(s, i);
    NodeRemovedNewestFirst(s, i);
    NodeRemovedTableView(s, i);
    NodeRemovedKeyList(s, i);
    assert s.lru[i] in s.lru;
    NodeRemovedEntries(s, i);
  }

  // ---- taking an entry off the low-memory list: back to the pool, or freed ----

  function LowRecycled(s: Shape, i: nat): (r: Shape)
    requires i < |s.lowBlocked|
  {
    s.(lowBlocked := Unlink(s.lowBlocked, i), freeList := [s.lowBlocked[i]] + s.freeList)
  }

  function LowFreed(s: Shape, i: nat): (r: Shape)
    requires i < |s.lowBlocked|
  {
    s.(lowBlocked := Unlink(s.lowBlocked, i), memory := s.memory - {s.lowBlocked[i]})
  }

  lemma LowRecycledOwned(s: Shape, i: nat)
    requires Owned(s) && i < |s.lowBlocked|
    ensures Owned(LowRecycled(s, i))
  {
    UnlinkMembers(s.lowBlocked, i);
    assert s.lowBlocked[i] in s.lowBlocked;
    assert s.lowBlocked[i] !in s.freeList;
  }

  lemma LowFreedOwned(s: Shape, i: nat)
    requires Owned(s) && i < |s.lowBlocked|
    ensures Owned(LowFreed(s, i))
  {
  }

  lemma UnlinkDistinctKeys(memory: map<Address, Context>, s: seq<Address>, i: nat)
    requires i < |s| && DistinctKeys(memory, s)
    ensures DistinctKeys(memory, Unlink(s, i))
    ensures forall a :: a in Unlink(s, i) ==> a in s
    ensures s[i] !in Unlink(s, i)
  {
  }

  lemma LowRecycledLinked(s: Shape, i: nat)
    requires Linked(s) && i < |s.lowBlocked|
    ensures s.lowBlocked[i] in s.memory && Linked(LowRecycled(s, i))
    ensures AsView(LowRecycled(s, i)) == AsView(s).Without(s.memory[s.lowBlocked[i]].key)
  {
    var k := s.memory[s.lowBlocked[i]].key;
    LowRecycledOwned(s, i);
    UnlinkDistinctKeys(s.memory, s.lowBlocked, i);
    UnlinkNewestFirst(s.memory, s.lowBlocked, i);
    EntriesUnlink(s.memory, s.lowBlocked, i);
    RemoveAbsent(TableView(s), k);
    assert s.lowBlocked[i] in s.lowBlocked;
    KeyListAbsent(s, k);
  }

  lemma RemoveAbsent(m: map<Key, Stamp>, k: Key)
    requires k !in m
    ensures m - {k} == m
  {
  }

  lemma LowFreedThreaded(s: Shape, i: nat)
    requires Owned(s) && Threaded(s) && i < |s.lowBlocked|
    ensures Threaded(LowFreed(s, i))
    ensures TableView(LowFreed(s, i)) == TableView(s)
    ensures KeyList(LowFreed(s, i).memory, s.lru) == KeyList(s.memory, s.lru)
  {
  }

  lemma LowFreedLists(s: Shape, i: nat)
    requires Owned(s) && i < |s.lowBlocked|
    requires NewestFirst(s.memory, s.lowBlocked) && DistinctKeys(s.memory, s.lowBlocked)
    ensures NewestFirst(LowFreed(s, i).memory, LowFreed(s, i).lowBlocked)
    ensures DistinctKeys(LowFreed(s, i).memory, LowFreed(s, i).lowBlocked)
    ensures Entries(LowFreed(s, i).memory, LowFreed(s, i).lowBlocked)
         == Entries(s.memory, s.lowBlocked) - {s.memory[s.lowBlocked[i]].key}
  {
    var a := s.lowBlocked[i];
    assert a in s.lowBlocked;
    assert a !in s.lru;
    UnlinkDistinctKeys(s.memory, s.lowBlocked, i);
    UnlinkNewestFirst(s.memory, s.lowBlocked, i);
    FreeNewestFirst(s.memory, Unlink(s.lowBlocked, i), a);
    EntriesUnlink(s.memory, s.lowBlocked, i);
    EntriesFrame(s.memory, LowFreed(s, i).memory, Unlink(s.lowBlocked, i));
  }

  lemma LowFreedLinked(s: Shape, i: nat)
    requires Linked(s) && i < |s.lowBlocked|
    ensures s.lowBlocked[i] in s.memory && Linked(LowFreed(s, i))
    ensures AsView(LowFreed(s, i)) == AsView(s).Without(s.memory[s.lowBlocked[i]].key)
  {
    UnlinkDistinctKeys(s.memory, s.lowBlocked, i);
    LowFreedOwned(s, i);
    LowFreedThreaded(s, i);
    LowFreedLists(s, i);
    RemoveAbsent(TableView(s), s.memory[s.lowBlocked[i]].key);
    assert s.lowBlocked[i] in s.lowBlocked;
    KeyListAbsent(s, s.memory[s.lowBlocked[i]].key);
  }

  // ---- adding an entry at the head of a list ----

  /** A new table node at address `a`. */
  function NodeAdded(s: Shape, a: Address, c: Context): (r: Shape) {
    s.(memory := s.memory[a := c], table := s.table[c.key := a], lru := [a] + s.lru)
  }

  /** The context at the head of the pool, filled and put on the low-memory list. */
  function LowAdded(s: Shape, c: Context): (r: Shape)
    requires s.freeList != []
  {
    s.(memory := s.memory[s.freeList[0] := c], freeList := s.freeList[1..], lowBlocked := [s.freeList[0]] + s.lowBlocked)
  }

  lemma UpdateNewestFirst(memory: map<Address, Context>, s: seq<Address>, a: Address, c: Context)
    requires NewestFirst(memory, s) && a !in s
    ensures NewestFirst(memory[a := c], s)
    ensures (forall b :: b in s ==> memory[b].timestamp <= c.timestamp) ==> NewestFirst(memory[a := c], [a] + s)
  {
  }

  lemma NodeAddedOwned(s: Shape, a: Address, c: Context)
    requires Owned(s) && a !in s.memory
    ensures Owned(NodeAdded(s, a, c))
    ensures a !in s.lru && a !in s.lowBlocked
  {
  }

  lemma NodeAddedThreaded(s: Shape, a: Address, c: Context)
    requires Threaded(s) && a !in s.lru && c.key !in s.table
    ensures Threaded(NodeAdded(s, a, c))
    ensures TableView(NodeAdded(s, a, c)) == TableView(s)[c.key := c.timestamp]
  {
  }

  lemma NodeAddedKeyList(s: Shape, a: Address, c: Context)
    requires Threaded(s) && a !in s.lru
    ensures (forall b :: b in NodeAdded(s, a, c).lru ==> b in NodeAdded(s, a, c).memory)
    ensures KeyList(NodeAdded(s, a, c).memory, NodeAdded(s, a, c).lru) == [c.key] + KeyList(s.memory, s.lru)
  {
  }

  lemma NodeAddedUniqueKeys(s: Shape, a: Address, c: Context)
    requires UniqueKeys(s) && a !in s.lowBlocked && c.key !in Entries(s.memory, s.lowBlocked)
    ensures UniqueKeys(NodeAdded(s, a, c))
    ensures Entries(NodeAdded(s, a, c).memory, s.lowBlocked) == Entries(s.memory, s.lowBlocked)
  {
    EntriesFrame(s.memory, NodeAdded(s, a, c).memory, s.lowBlocked);
    EntriesKeys(s.memory, s.lowBlocked);
    forall b | b in s.lowBlocked ensures s.memory[b].key != c.key {
      var i :| 0 <= i < |s.lowBlocked| && s.lowBlocked[i] == b;
    }
  }

  lemma {:induction false} EntriesNotAfter(memory: map<Address, Context>, list: seq<Address>, clock: Stamp)
    requires DistinctKeys(memory, list)
    requires forall k :: k in Entries(memory, list) ==> Entries(memory, list)[k] <= clock
    ensures forall a :: a in list ==> memory[a].timestamp <= clock
  {
    if list != [] {
      var rest := Entries(memory, list[1..]);
      var k0 := memory[list[0]].key;
      EntriesKeys(memory, list[1..]);
      assert k0 !in rest;
      assert Entries(memory, list)[k0] <= clock;
      forall k | k in rest ensures rest[k] <= clock {
        assert Entries(memory, list)[k] == rest[k];
      }
      EntriesNotAfter(memory, list[1..], clock);
    }
  }

  lemma NodeAddedLinked(s: Shape, a: Address, c: Context)
    requires Linked(s) && a !in s.memory && c.key !in AsView(s).Blocked()
    ensures Linked(NodeAdded(s, a, c))
    ensures AsView(NodeAdded(s, a, c)) ==
            AsView(s).(table := AsView(s).table[c.key := c.timestamp], order := [c.key] + AsView(s).order)
  {
    NodeAddedOwned(s, a, c);
    NodeAddedThreaded(s, a, c);
    NodeAddedUniqueKeys(s, a, c);
    NodeAddedKeyList(s, a, c);
    UpdateNewestFirst(s.memory, s.lowBlocked, a, c);
  }

  lemma LowAddedOwned(s: Shape, c: Context)
    requires Owned(s) && s.freeList != []
    ensures Owned(LowAdded(s, c))
    ensures s.freeList[0] !in s.lru && s.freeList[0] !in s.lowBlocked
  {
    var a := s.freeList[0];
    assert a in s.freeList;
    assert a !in s.lru && a !in s.lowBlocked;
    assert Unlink(s.freeList, 0) == s.freeList[1..];
    UnlinkMembers(s.freeList, 0);
  }

  lemma LowAddedThreaded(s: Shape, c: Context)
    requires Threaded(s) && s.freeList != [] && s.freeList[0] !in s.lru
    ensures Threaded(LowAdded(s, c))
    ensures TableView(LowAdded(s, c)) == TableView(s)
    ensures KeyList(LowAdded(s, c).memory, s.lru) == KeyList(s.memory, s.lru)
  {
  }

  lemma LowAddedUniqueKeys(s: Shape, c: Context)
    requires UniqueKeys(s) && s.freeList != [] && s.freeList[0] !in s.lowBlocked
    requires c.key !in Entries(s.memory, s.lowBlocked) && c.key !in s.table
    ensures UniqueKeys(LowAdded(s, c))
    ensures Entries(LowAdded(s, c).memory, LowAdded(s, c).lowBlocked)
         == Entries(s.memory, s.lowBlocked)[c.key := c.timestamp]
  {
    var r := LowAdded(s, c);
    EntriesFrame(s.memory, r.memory, s.lowBlocked);
    EntriesKeys(s.memory, s.lowBlocked);
    assert r.lowBlocked[1..] == s.lowBlocked;
  }

  lemma LowAddedLinked(s: Shape, c: Context)
    requires Linked(s) && s.freeList != [] && c.key !in AsView(s).Blocked() && AsView(s).NotAfter(c.timestamp)
    ensures Linked(LowAdded(s, c))
    ensures AsView(LowAdded(s, c)) == AsView(s).(low := AsView(s).low[c.key := c.timestamp])
  {
    LowAddedOwned(s, c);
    LowAddedThreaded(s, c);
    LowAddedUniqueKeys(s, c);
    EntriesNotAfter(s.memory, s.lowBlocked, c.timestamp);
    UpdateNewestFirst(s.memory, s.lowBlocked, s.freeList[0], c);
  }

  // ---- what the order of a list says about its entries ----

  lemma {:induction false} EntriesNewerThan(memory: map<Address, Context>, list: seq<Address>, expiry: Stamp)
    requires NewestFirst(memory, list)
    requires list != [] ==> memory[list[|list| - 1]].timestamp > expiry
    ensures forall k :: k in Entries(memory, list) ==> Entries(memory, list)[k] > expiry
  {
    if list != [] {
      assert forall i :: 0 <= i < |list[1..]| ==> list[1..][i] == list[i + 1];
      EntriesNewerThan(memory, list[1..], expiry);
    }
  }

  lemma {:induction false} EntryAt(memory: map<Address, Context>, list: seq<Address>, i: nat)
    requires DistinctKeys(memory, list) && i < |list|
    ensures memory[list[i]].key in Entries(memory, list)
    ensures Entries(memory, list)[memory[list[i]].key] == memory[list[i]].timestamp
  {
    if i > 0 {
      assert list[1..][i - 1] == list[i];
      EntryAt(memory, list[1..], i - 1);
    }
  }

  // ---- growing and shrinking the pool ----

  function PoolGrown(s: Shape, a: Address, c: Context): (r: Shape) {
    s.(memory := s.memory[a := c], freeList := [a] + s.freeList)
  }

  function PoolShrunk(s: Shape): (r: Shape)
    requires s.freeList != []
  {
    s.(memory := s.memory - {s.freeList[0]}, freeList := s.freeList[1..])
  }

  lemma PoolGrownLinked(s: Shape, a: Address, c: Context)
    requires Linked(s) && a !in s.memory && s.lru == [] && s.lowBlocked == []
    ensures Linked(PoolGrown(s, a, c)) && AsView(PoolGrown(s, a, c)) == AsView(s)
  {
    PoolGrownOwned(s, a, c);
    var r := PoolGrown(s, a, c);
    assert r.table == s.table && s.table == map[] by {
      assert forall k :: k !in s.table;
    }
    hide Owned;
  }

  lemma PoolGrownOwned(s: Shape, a: Address, c: Context)
    requires Owned(s) && a !in s.memory
    ensures Owned(PoolGrown(s, a, c))
  {
  }

  lemma PoolShrunkLinked(s: Shape)
    requires Linked(s) && s.freeList != [] && s.lru == [] && s.lowBlocked == []
    ensures s.freeList[0] in s.memory && Linked(PoolShrunk(s))
  {
  }

  const NO_LISTS := Shape(map[], map[], [], [], [])

  lemma NoListsLinked()
    ensures Linked(NO_LISTS) && AsView(NO_LISTS) == EMPTY_VIEW
  {
  }

  lemma {:induction false} AddressBound(addresses: set<Address>) returns (bound: Address)
    ensures bound !in addresses
    ensures forall a :: a in addresses ==> a < bound
  {
    if addresses == {} {
      bound := 0;
    } else {
      var a :| a in addresses;
      var rest := AddressBound(addresses - {a});
      bound := if a < rest then rest else a + 1;
      forall b | b in addresses ensures b < bound {
        if b != a {
          assert b in addresses - {a};
        }
      }
    }
  }
}

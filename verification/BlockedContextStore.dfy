/** The blocked-connection store and its operations, as they run under the store's lock. */
module BlockedContextStore {
  import opened ConnectionContexts
  import opened StoreShape

  class Store {
    var lists: Shape           // the table, the three lists and the memory they are made of
    var blockedCount: nat
    var lowBlockedCount: nat

    ghost predicate Sound()
      reads this
    {
      && Linked(lists)
      && blockedCount == |lists.lru|
      && lowBlockedCount == |lists.lowBlocked|
    }

    /** What holds between a successful initialization and uninitialization. */
    ghost predicate Valid()
      reads this
    {
      Sound() && PoolSize() == POOL_SIZE
    }

    ghost function PoolSize(): nat
      reads this
    {
      |lists.freeList| + |lists.lowBlocked|
    }

    ghost function Contents(): View
      requires Sound()
      reads this
    {
      AsView(lists)
    }

    /** Nothing allocated: the state before initialization and after uninitialization. */
    ghost predicate Released()
      reads this
    {
      lists == NO_LISTS && blockedCount == 0 && lowBlockedCount == 0
    }

    constructor ()
      ensures Released()
    {
      lists := NO_LISTS;
      blockedCount, lowBlockedCount := 0, 0;
    }

    /** Takes node `i` off the LRU list and deletes it from the table, which frees it. */
    method RemoveNode(i: nat)
      requires Sound() && i < |lists.lru|
      modifies this
      ensures Sound()
      ensures lists == NodeRemoved(old(lists), i)
      ensures Contents() == old(Contents()).Without(old(lists.memory[lists.lru[i]].key))
    {
      hide Linked, AsView;
      NodeRemovedLinked(lists, i);
      var node := lists.lru[i];
      lists := lists.(lru := Unlink(lists.lru, i), table := lists.table - {lists.memory[node].key},
                      memory := lists.memory - {node});
      blockedCount := blockedCount - 1;
    }

    /** Takes context `i` off the low-memory list; it goes back to the pool or is freed. */
    method RemoveLow(i: nat, release: bool)
      requires Sound() && i < |lists.lowBlocked|
      modifies this
      ensures Sound()
      ensures lists == if release then LowFreed(old(lists), i) else LowRecycled(old(lists), i)
      ensures Contents() == old(Contents()).Without(old(lists.memory[lists.lowBlocked[i]].key))
    {
      hide Linked, AsView;
      if release {
        LowFreedLinked(lists, i);
        lists := lists.(lowBlocked := Unlink(lists.lowBlocked, i), memory := lists.memory - {lists.lowBlocked[i]});
      } else {
        LowRecycledLinked(lists, i);
        lists := lists.(lowBlocked := Unlink(lists.lowBlocked, i), freeList := [lists.lowBlocked[i]] + lists.freeList);
      }
      lowBlockedCount := lowBlockedCount - 1;
    }

    method FindAndRemove(key: Key) returns (found: bool)
      requires Sound()
      modifies this
      ensures Sound()
      ensures found <==> key in old(Contents()).Blocked()
      ensures Contents() == old(Contents()).Without(key)
      ensures PoolSize() == old(PoolSize())
    {
      found := false;
      if key in lists.table {
        found := true;
        var i :| 0 <= i < |lists.lru| && lists.lru[i] == lists.table[key];
        RemoveNode(i);
      } else {
        var i := 0;
        while i < |lists.lowBlocked|
          invariant 0 <= i <= |lists.lowBlocked|
          invariant lists == old(lists) && Sound() && !found
          invariant forall j :: 0 <= j < i ==> lists.memory[lists.lowBlocked[j]].key != key
        {
          if lists.memory[lists.lowBlocked[i]].key == key {
            EntryAt(lists.memory, lists.lowBlocked, i);
            RemoveLow(i, false);
            found := true;
            return;
          }
          i := i + 1;
        }
        NotListed(lists, key);
      }
    }

    /** First half of a purge: stale nodes, from the tail of the LRU list. It stops at the first that is not stale, and
        so leaves the stale ones in front of it. */
    method PurgeTable(deleteAll: bool, expiry: Stamp)
      requires Sound()
      modifies this
      ensures Sound()
      ensures Contents().low == old(Contents()).low
      ensures !deleteAll ==>
        var kept := Kept(old(Contents()).table, old(Contents()).order, expiry);
        Contents().order == kept && Contents().table == Restricted(old(Contents()).table, kept)
      ensures deleteAll ==> lists.lru == []
      ensures lists.freeList == old(lists.freeList) && lists.lowBlocked == old(lists.lowBlocked)
    {
      hide Linked, AsView, Kept, Restricted;
      ghost var before := Contents();
      LinkedListed(lists);
      NothingDropped(before, expiry);
      while lists.lru != []
        invariant Sound()
        invariant DroppedTo(before, Contents(), expiry, deleteAll)
        invariant lists.freeList == old(lists.freeList) && lists.lowBlocked == old(lists.lowBlocked)
        decreases |lists.lru|
      {
        var last := |lists.lru| - 1;
        NodeAt(lists, last);
        var entry := lists.memory[lists.lru[last]];
        if !deleteAll && entry.timestamp > expiry {
          AllDropped(before, Contents(), expiry, deleteAll);
          return;
        }
        LastDropped(before, Contents(), expiry, deleteAll);
        RemoveNode(last);
      }
      NoOrder(lists);
      AllDropped(before, Contents(), expiry, deleteAll);
    }

    /** Second half of a purge: stale contexts, from the tail of the low-memory list. */
    method PurgeLow(deleteAll: bool, expiry: Stamp)
      requires Sound()
      modifies this
      ensures Sound()
      ensures Contents().table == old(Contents()).table && Contents().order == old(Contents()).order
      ensures !deleteAll ==> Contents().low == NewerThan(old(Contents()).low, expiry) && PoolSize() == old(PoolSize())
      ensures deleteAll ==> lists.lowBlocked == [] && lists.freeList == old(lists.freeList)
      ensures lists.lru == old(lists.lru) && lists.table == old(lists.table)
    {
      hide Linked, AsView;
      ghost var before := Contents();
      ghost var gone: set<Key> := {};
      while lists.lowBlocked != []
        invariant Sound()
        invariant Contents().table == before.table && Contents().order == before.order
        invariant Contents().low == before.low - gone
        invariant forall k :: k in gone && k in before.low ==> deleteAll || before.low[k] <= expiry
        invariant lists.lru == old(lists.lru) && lists.table == old(lists.table)
        invariant if deleteAll then lists.freeList == old(lists.freeList) else PoolSize() == old(PoolSize())
        decreases |lists.lowBlocked|
      {
        var last := |lists.lowBlocked| - 1;
        LowAt(lists, last);
        var entry := lists.memory[lists.lowBlocked[last]];
        if !deleteAll && entry.timestamp > expiry {
          break;
        }
        LinkedListed(lists);
        LowRemoved(Contents(), entry.key);
        RemoveLow(last, deleteAll);
        RemoveOneMore(before.low, gone, entry.key);
        gone := gone + {entry.key};
      }
      if !deleteAll {
        LowNewerThan(lists, expiry);
        OnlyStaleGone(before.low, gone, expiry);
      }
    }

    /** Drops the entries that have expired by `now`; with `deleteAll`, drops and frees everything in use. */
    method Purge(deleteAll: bool, now: Stamp)
      requires Sound()
      modifies this
      ensures Sound()
      ensures !deleteAll ==> Contents() == old(Contents()).Purged(now) && PoolSize() == old(PoolSize())
      ensures deleteAll ==> lists.lru == [] && lists.lowBlocked == [] && lists.freeList == old(lists.freeList)
    {
      hide Linked, AsView;
      var expiry := ExpiryTime(now);
      PurgeTable(deleteAll, expiry);
      ghost var v := Contents();
      PurgeLow(deleteAll, expiry);
      assert !deleteAll ==> Contents().low == NewerThan(old(Contents()).low, expiry);
    }

    /** Fills the context at the head of the pool and puts it on the low-memory list. */
    method TakeFromPool(content: Context)
      requires Sound() && lists.freeList != []
      requires content.key !in Contents().Blocked() && Contents().NotAfter(content.timestamp)
      modifies this
      ensures Sound() && PoolSize() == old(PoolSize())
      ensures Contents() == old(Contents()).(low := old(Contents()).low[content.key := content.timestamp])
    {
      hide Linked, AsView;
      LowAddedLinked(lists, content);
      var entry := lists.freeList[0];
      lists := lists.(freeList := lists.freeList[1..], memory := lists.memory[entry := content],
                      lowBlocked := [entry] + lists.lowBlocked);
      lowBlockedCount := lowBlockedCount + 1;
    }

    method InsertToLowMemoryList(key: Key, now: Stamp)
      requires Valid() && key !in Contents().Blocked() && Contents().NotAfter(now)
      modifies this
      ensures Valid()
      ensures Contents() == if |old(Contents()).low| < POOL_SIZE
                            then old(Contents()).(low := old(Contents()).low[key := now]) else old(Contents())
    {
      hide Linked, AsView;
      LowSize(lists);
      if lists.freeList == [] {
        return;
      }
      TakeFromPool(Context(key, now));
    }

    /** Records a rejected connection. The node is stamped before the lock is taken, so that other entries can have a
        later stamp; a pool context is stamped, and the clock read for the purge, under the lock. */
    method Insert(key: Key, nodeAllocated: bool, stamp: Stamp, lowStamp: Stamp, purgeTime: Stamp)
      requires Valid() && Contents().NotAfter(lowStamp) && stamp <= lowStamp <= purgeTime
      modifies this
      ensures Valid()
      ensures Contents() == old(Contents()).Inserted(key, nodeAllocated, stamp, lowStamp, purgeTime)
    {
      hide Linked, AsView;
      var found := FindAndRemove(key);
      assert Contents() == old(Contents()).Without(key);
      if nodeAllocated {
        InsertNode(key, stamp);
      } else {
        InsertToLowMemoryList(key, lowStamp);
      }
      assert Contents() == old(Contents()).Stored(key, nodeAllocated, stamp, lowStamp);
      Purge(false, purgeTime);
    }

    method InsertNode(key: Key, now: Stamp)
      requires Valid() && key !in Contents().Blocked()
      modifies this
      ensures Valid()
      ensures Contents() ==
        old(Contents()).(table := old(Contents()).table[key := now], order := [key] + old(Contents()).order)
    {
      hide Linked, AsView;
      ghost var bound := AddressBound(lists.memory.Keys);
      var node :| node !in lists.memory;
      NodeAddedLinked(lists, node, Context(key, now));
      lists := lists.(memory := lists.memory[node := Context(key, now)], table := lists.table[key := node],
                      lru := [node] + lists.lru);
      blockedCount := blockedCount + 1;
    }

    method GrowPool(content: Context)
      requires Sound() && lists.lru == [] && lists.lowBlocked == []
      modifies this
      ensures Sound() && lists.lru == [] && lists.lowBlocked == []
      ensures |lists.freeList| == old(|lists.freeList|) + 1
      ensures Contents() == old(Contents())
    {
      hide Linked, AsView;
      ghost var bound := AddressBound(lists.memory.Keys);
      var context :| context !in lists.memory;
      PoolGrownLinked(lists, context, content);
      lists := lists.(memory := lists.memory[context := content], freeList := [context] + lists.freeList);
    }

    /** Allocates the pool. `granted` says which of the allocations the system grants. */
    method Initialize(granted: seq<bool>, content: Context, now: Stamp) returns (ok: bool)
      requires Released() && |granted| == 1000
      modifies this
      ensures ok <==> forall i :: 0 <= i < 1000 ==> granted[i]
      ensures ok ==> Valid() && Contents() == EMPTY_VIEW && |lists.freeList| == 1000
      ensures !ok ==> Released()
    {
      hide Linked, AsView;
      NoListsLinked();
      ok := true;
      var i := 0;
      while i < POOL_SIZE
        invariant 0 <= i <= POOL_SIZE
        invariant Sound() && Contents() == EMPTY_VIEW
        invariant lists.lru == [] && lists.lowBlocked == [] && |lists.freeList| == i
        invariant forall j :: 0 <= j < i ==> granted[j]
      {
        if !granted[i] {
          ok := false;
          Uninitialize(now);
          return;
        }
        GrowPool(content);
        i := i + 1;
      }
    }

    /** Frees everything: each read of `lists.memory` below is of a live allocation. */
    method Uninitialize(now: Stamp)
      requires Sound()
      modifies this
      ensures Released()
    {
      hide Linked, AsView;
      Purge(true, now);
      while lists.freeList != []
        invariant Sound() && lists.lru == [] && lists.lowBlocked == []
        decreases |lists.freeList|
      {
        PoolShrunkLinked(lists);
        var context := lists.freeList[0];
        assert context in lists.memory;
        lists := lists.(freeList := lists.freeList[1..], memory := lists.memory - {context});
      }
      NothingLeft(lists);
    }
  }

  lemma LowAt(s: Shape, i: nat)
    requires Linked(s) && i < |s.lowBlocked|
    ensures s.lowBlocked[i] in s.memory
    ensures s.memory[s.lowBlocked[i]].key in AsView(s).low
    ensures AsView(s).low[s.memory[s.lowBlocked[i]].key] == s.memory[s.lowBlocked[i]].timestamp
    ensures s.memory[s.lowBlocked[i]].key !in AsView(s).table
  {
    assert s.lowBlocked[i] in s.lowBlocked;
    EntryAt(s.memory, s.lowBlocked, i);
  }

  lemma LowSize(s: Shape)
    requires Linked(s)
    ensures |AsView(s).low| == |s.lowBlocked|
  {
    EntriesSize(s.memory, s.lowBlocked);
  }

  lemma NothingLeft(s: Shape)
    requires Linked(s) && s.lru == [] && s.lowBlocked == [] && s.freeList == []
    ensures s == NO_LISTS
  {
  }

  lemma NodeAt(s: Shape, i: nat)
    requires Linked(s) && i < |s.lru|
    ensures s.lru[i] in s.memory
    ensures s.memory[s.lru[i]].key in AsView(s).table
    ensures AsView(s).table[s.memory[s.lru[i]].key] == s.memory[s.lru[i]].timestamp
    ensures s.memory[s.lru[i]].key !in AsView(s).low
    ensures |AsView(s).order| == |s.lru| && AsView(s).order[i] == s.memory[s.lru[i]].key
  {
    assert s.lru[i] in s.lru;
    EntriesKeys(s.memory, s.lowBlocked);
  }

  lemma RemoveOneMore(m: map<Key, Stamp>, gone: set<Key>, key: Key)
    ensures (m - gone) - {key} == m - (gone + {key})
  {
  }

  /** Some stale entries have been dropped from the tail of the order, and no other. */
  ghost predicate DroppedTo(before: View, v: View, expiry: Stamp, deleteAll: bool) {
    && v.Listed() && v.low == before.low && v.order <= before.order && v.table == Restricted(before.table, v.order)
    && (!deleteAll ==> Kept(before.table, before.order, expiry) == Kept(before.table, v.order, expiry))
  }

  lemma NothingDropped(v: View, expiry: Stamp)
    requires v.Listed()
    ensures DroppedTo(v, v, expiry, false) && DroppedTo(v, v, expiry, true)
  {
  }

  lemma LastDropped(before: View, v: View, expiry: Stamp, deleteAll: bool)
    requires before.Listed() && DroppedTo(before, v, expiry, deleteAll) && v.order != []
    requires var last := v.order[|v.order| - 1];
             last !in v.low && last in v.table && (deleteAll || v.table[last] <= expiry)
    ensures DroppedTo(before, v.Without(v.order[|v.order| - 1]), expiry, deleteAll)
  {
    hide View.Listed, Kept, Restricted, Removed;
    var n := |v.order| - 1;
    var last := v.order[n];
    WithoutListed(v, last);
    LastRemoved(v);
    RestrictedMore(before.table, v);
    LastKept(before.table, v.order, expiry);
    InRestricted(before.table, v.order, last);
    ShorterPrefix(v.order, before.order);
    RemoveAbsent(v.low, last);
  }

  lemma ShorterPrefix(a: seq<Key>, b: seq<Key>)
    requires a <= b && a != []
    ensures a[..|a| - 1] <= b
  {
  }

  lemma LastRemoved(v: View)
    requires v.Listed() && v.order != []
    ensures Removed(v.order, v.order[|v.order| - 1]) == v.order[..|v.order| - 1]
  {
    var n := |v.order| - 1;
    RemovedOnce(v.order, n);
    assert v.order[..n] + v.order[n + 1..] == v.order[..n];
  }

  lemma RestrictedMore(m: map<Key, Stamp>, v: View)
    requires v.Listed() && v.order != []
    ensures Restricted(m, v.order) - {v.order[|v.order| - 1]} == Restricted(m, v.order[..|v.order| - 1])
  {
    var n := |v.order| - 1;
    assert v.order == v.order[..n] + [v.order[n]];
  }

  lemma LastKept(table: map<Key, Stamp>, order: seq<Key>, expiry: Stamp)
    requires order != []
    ensures var last := order[|order| - 1];
            last in table && table[last] <= expiry ==> Kept(table, order, expiry) == Kept(table, order[..|order| - 1], expiry)
  {
  }

  lemma InRestricted(m: map<Key, Stamp>, keys: seq<Key>, k: Key)
    ensures k in Restricted(m, keys) ==> k in m && Restricted(m, keys)[k] == m[k]
  {
  }

  lemma LowNewerThan(s: Shape, expiry: Stamp)
    requires Linked(s)
    requires s.lowBlocked != [] ==>
      var a := s.lowBlocked[|s.lowBlocked| - 1]; a in s.memory && s.memory[a].timestamp > expiry
    ensures forall k :: k in AsView(s).low ==> AsView(s).low[k] > expiry
  {
    EntriesNewerThan(s.memory, s.lowBlocked, expiry);
  }

  lemma NoOrder(s: Shape)
    requires Linked(s) && s.lru == []
    ensures AsView(s).order == []
  {
  }

  /** Taking off an entry of the low-memory list leaves the table and its order. */
  lemma LowRemoved(v: View, key: Key)
    requires v.Listed() && key !in v.table
    ensures v.Without(key).table == v.table && v.Without(key).order == v.order && v.Without(key).low == v.low - {key}
  {
    RemovedAbsent(v.order, key);
  }

  lemma AllDropped(before: View, v: View, expiry: Stamp, deleteAll: bool)
    requires DroppedTo(before, v, expiry, deleteAll)
    requires !deleteAll && v.order != [] ==> v.order[|v.order| - 1] in v.table && v.table[v.order[|v.order| - 1]] > expiry
    ensures v.low == before.low
    ensures !deleteAll ==>
      var kept := Kept(before.table, before.order, expiry); v.order == kept && v.table == Restricted(before.table, kept)
  {
  }

  lemma NotListed(s: Shape, key: Key)
    requires Linked(s) && key !in s.table
    requires forall j :: 0 <= j < |s.lowBlocked| ==> s.memory[s.lowBlocked[j]].key != key
    ensures key !in AsView(s).Blocked() && AsView(s) == AsView(s).Without(key)
  {
    EntriesKeys(s.memory, s.lowBlocked);
    RemoveAbsent(AsView(s).table, key);
    RemoveAbsent(AsView(s).low, key);
    KeyListAbsent(s, key);
  }
}

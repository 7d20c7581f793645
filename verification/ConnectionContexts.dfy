/** The blocked-connection store of the sock_addr hook: connections the eBPF program
    rejected at the CONNECT_REDIRECT layer, kept until the AUTH_CONNECT layer asks for them.

    `View` is what a client may know of the store: which keys are blocked, with which
    timestamp, and whether the entry sits in the table or in the low-memory list.
    The functions on `View` are the specification of the operations. */
module ConnectionContexts {

  const EXPIRY_TIME: nat := 60000
  const POOL_SIZE: nat := 1000
  const UINT64_RANGE: nat := 0x1_0000_0000_0000_0000

  /** A clock reading in milliseconds, held in 64 bits. */
  type Stamp = t: nat | t < UINT64_RANGE

  /** A 16-byte address as four words in network byte order; `w0` is also the IPv4 address. */
  datatype Ip = Ip(w0: nat, w1: nat, w2: nat, w3: nat)

  /** Every field of a connection context that precedes its timestamp. */
  datatype Key = Key(endpoint: nat, family: nat, destination: Ip, destinationPort: nat, sourcePort: nat,
                     compartment: nat, protocol: nat)

  datatype Context = Context(key: Key, timestamp: Stamp)

  /** Entries at or before this time are stale. The subtraction is on unsigned 64-bit
      numbers: before the first minute is over it wraps around. */
  function ExpiryTime(now: Stamp): Stamp {
    if now >= EXPIRY_TIME then now - EXPIRY_TIME else now + UINT64_RANGE - EXPIRY_TIME
  }

  /** The entries newer than `expiry`. */
  function NewerThan(m: map<Key, Stamp>, expiry: Stamp): map<Key, Stamp> {
    map k | k in m && m[k] > expiry :: m[k]
  }

  function Removed(order: seq<Key>, key: Key): seq<Key> {
    if order == [] then []
    else if order[0] == key then Removed(order[1..], key) else [order[0]] + Removed(order[1..], key)
  }

  /** What is left of a list when its stale entries are dropped from the tail, up to the first that is not stale. */
  function Kept(table: map<Key, Stamp>, order: seq<Key>, expiry: Stamp): seq<Key> {
    if order == [] then []
    else
      var last := order[|order| - 1];
      if last in table && table[last] <= expiry then Kept(table, order[..|order| - 1], expiry) else order
  }

  function Restricted(m: map<Key, Stamp>, keys: seq<Key>): map<Key, Stamp> {
    map k | k in m && k in keys :: m[k]
  }

  /** The table, its keys in the order of their insertion with the latest first, and the low-memory list. */
  datatype View = View(table: map<Key, Stamp>, order: seq<Key>, low: map<Key, Stamp>) {

    /** The one partial map that both structures together stand for. */
    function Blocked(): map<Key, Stamp> {
      table + low
    }

    predicate Consistent() {
      table.Keys !! low.Keys && |low| <= POOL_SIZE && Listed()
    }

    /** The order has each key of the table once. */
    predicate Listed() {
      && (forall k :: k in order ==> k in table) && (forall k :: k in table ==> k in order)
      && (forall i, j :: 0 <= i < j < |order| ==> order[i] != order[j])
    }

    function Without(key: Key): View {
      View(table - {key}, Removed(order, key), low - {key})
    }

    /** The entries after a purge at `now`. */
    function Purged(now: Stamp): View {
      var kept := Kept(table, order, ExpiryTime(now));
      View(Restricted(table, kept), kept, NewerThan(low, ExpiryTime(now)))
    }

    /** An entry of the table that is not stale was inserted before this one and stops the purge in front of it. */
    predicate Shielded(k: Key, expiry: Stamp) {
      exists i, j :: 0 <= i < j < |order| && order[i] == k && order[j] in table && table[order[j]] > expiry
    }

    /** The stamps of the table are in the order of insertion. */
    predicate InOrder() {
      forall i, j :: 0 <= i < j < |order| && order[i] in table && order[j] in table ==> table[order[i]] >= table[order[j]]
    }

    /** Where a rejected connection goes: the table if a node could be allocated,
        else a preallocated context if one is free, else nowhere. */
    function Stored(key: Key, nodeAllocated: bool, stamp: Stamp, lowStamp: Stamp): View {
      var v := Without(key);
      if nodeAllocated then v.(table := v.table[key := stamp], order := [key] + v.order)
      else if |v.low| < POOL_SIZE then v.(low := v.low[key := lowStamp])
      else v
    }

    function Inserted(key: Key, nodeAllocated: bool, stamp: Stamp, lowStamp: Stamp, purgeTime: Stamp): View {
      Stored(key, nodeAllocated, stamp, lowStamp).Purged(purgeTime)
    }

    /** No entry is newer than `clock`. */
    predicate NotAfter(clock: Stamp) {
      && (forall k :: k in table ==> table[k] <= clock)
      && (forall k :: k in low ==> low[k] <= clock)
    }
  }

  const EMPTY_VIEW := View(map[], [], map[])

  lemma OnlyStaleGone(m: map<Key, Stamp>, gone: set<Key>, expiry: Stamp)
    requires forall k :: k in gone && k in m ==> m[k] <= expiry
    requires forall k :: k in m - gone ==> (m - gone)[k] > expiry
    ensures m - gone == NewerThan(m, expiry)
  {
  }

  // ---- the order of a view ----

  lemma {:induction false} RemovedMembers(order: seq<Key>, key: Key, k: Key)
    ensures k in Removed(order, key) <==> k in order && k != key
  {
    if order != [] {
      RemovedMembers(order[1..], key, k);
    }
  }

  lemma {:induction false} RemovedAbsent(order: seq<Key>, key: Key)
    requires key !in order
    ensures Removed(order, key) == order
  {
    if order != [] {
      RemovedAbsent(order[1..], key);
    }
  }

  lemma {:induction false} RemovedOnce(order: seq<Key>, i: nat)
    requires i < |order| && forall j :: 0 <= j < |order| && j != i ==> order[j] != order[i]
    ensures Removed(order, order[i]) == order[..i] + order[i + 1..]
  {
    if i == 0 {
      assert order[i] !in order[1..];
      RemovedAbsent(order[1..], order[0]);
    } else {
      var rest := order[1..];
      assert rest[i - 1] == order[i];
      RemovedOnce(rest, i - 1);
      assert order[..i] == [order[0]] + rest[..i - 1] && order[i + 1..] == rest[i..];
    }
  }

  /** One key after another, in the same order as before. */
  lemma {:induction false} RemovedPair(order: seq<Key>, key: Key, i: nat, j: nat) returns (a: nat, b: nat)
    requires i < j < |Removed(order, key)|
    ensures i <= a < b < |order| && order[a] == Removed(order, key)[i] && order[b] == Removed(order, key)[j]
  {
    var rest := order[1..];
    if order[0] == key {
      a, b := RemovedPair(rest, key, i, j);
      a, b := a + 1, b + 1;
    } else if i > 0 {
      a, b := RemovedPair(rest, key, i - 1, j - 1);
      a, b := a + 1, b + 1;
    } else {
      RemovedMembers(rest, key, Removed(rest, key)[j - 1]);
      var c :| 0 <= c < |rest| && rest[c] == Removed(rest, key)[j - 1];
      a, b := 0, c + 1;
    }
  }

  lemma WithoutListed(v: View, key: Key)
    requires v.Listed()
    ensures v.Without(key).Listed()
  {
    var r := v.Without(key);
    forall k ensures k in r.order <==> k in r.table {
      RemovedMembers(v.order, key, k);
    }
    forall i, j | 0 <= i < j < |r.order| ensures r.order[i] != r.order[j] {
      var a, b := RemovedPair(v.order, key, i, j);
    }
  }

  lemma {:induction false} KeptPrefix(table: map<Key, Stamp>, order: seq<Key>, expiry: Stamp)
    ensures Kept(table, order, expiry) <= order
    ensures var kept := Kept(table, order, expiry);
            && (kept != [] ==> kept[|kept| - 1] !in table || table[kept[|kept| - 1]] > expiry)
            && (forall i :: |kept| <= i < |order| ==> order[i] in table && table[order[i]] <= expiry)
  {
    if order != [] {
      KeptPrefix(table, order[..|order| - 1], expiry);
    }
  }

  /** A purge keeps an entry of the table exactly when it is not stale or shielded by one that is not. */
  lemma KeptExactly(v: View, k: Key, expiry: Stamp)
    requires v.Listed()
    ensures k in Kept(v.table, v.order, expiry) <==> k in v.table && (v.table[k] > expiry || v.Shielded(k, expiry))
  {
    KeptPrefix(v.table, v.order, expiry);
    var kept := Kept(v.table, v.order, expiry);
    if k in kept {
      var i :| 0 <= i < |kept| && kept[i] == k;
      assert v.order[i] == k && v.order[|kept| - 1] == kept[|kept| - 1];
      assert v.order[|kept| - 1] in v.order;
    }
  }

  /** When the stamps are in order nothing is shielded: a purge removes exactly what is stale. */
  lemma InOrderNotShielded(v: View, k: Key, expiry: Stamp)
    requires v.InOrder() && k in v.table && v.table[k] <= expiry
    ensures !v.Shielded(k, expiry)
  {
  }

  // ---- the operations on views, key by key ----

  lemma {:induction false} SubmapSize(m: map<Key, Stamp>, smaller: map<Key, Stamp>)
    requires smaller.Keys <= m.Keys
    ensures |smaller| <= |m|
    decreases |m|
  {
    if smaller != map[] {
      var k :| k in smaller;
      assert (m - {k}).Keys == m.Keys - {k} && (smaller - {k}).Keys == smaller.Keys - {k};
      SubmapSize(m - {k}, smaller - {k});
    }
  }

  lemma WithoutConsistent(v: View, key: Key)
    requires v.Consistent()
    ensures v.Without(key).Consistent()
    ensures key !in v.Without(key).Blocked()
  {
    WithoutListed(v, key);
    hide View.Listed, Removed;
    SubmapSize(v.low, v.low - {key});
  }

  lemma AddedListed(v: View, key: Key, stamp: Stamp)
    requires v.Listed() && key !in v.table
    ensures v.(table := v.table[key := stamp], order := [key] + v.order).Listed()
  {
  }

  lemma StoredConsistent(v: View, key: Key, nodeAllocated: bool, stamp: Stamp, lowStamp: Stamp)
    requires v.Consistent()
    ensures v.Stored(key, nodeAllocated, stamp, lowStamp).Consistent()
  {
    WithoutConsistent(v, key);
    hide View.Without;
    var w := v.Without(key);
    AddedListed(w, key, stamp);
    hide View.Listed;
    ListedLow(w, w.low[key := lowStamp]);
  }

  lemma ListedLow(v: View, low: map<Key, Stamp>)
    ensures v.(low := low).Listed() == v.Listed()
  {
  }

  lemma PurgedConsistent(v: View, now: Stamp)
    requires v.Consistent()
    ensures v.Purged(now).Consistent()
  {
    KeptPrefix(v.table, v.order, ExpiryTime(now));
    hide Kept;
    SubmapSize(v.low, v.Purged(now).low);
  }

  lemma WithoutOther(v: View, key: Key, k: Key)
    requires k != key
    ensures k in v.Without(key).Blocked() <==> k in v.Blocked()
    ensures k in v.Blocked() ==> v.Without(key).Blocked()[k] == v.Blocked()[k]
    ensures k in v.Without(key).table <==> k in v.table
  {
  }

  lemma AddedOther(v: View, key: Key, t: Stamp, k: Key)
    requires k != key
    ensures var a := v.(table := v.table[key := t], order := [key] + v.order).Blocked();
            (k in a <==> k in v.Blocked()) && (k in v.Blocked() ==> a[k] == v.Blocked()[k])
    ensures var a := v.(low := v.low[key := t]).Blocked();
            (k in a <==> k in v.Blocked()) && (k in v.Blocked() ==> a[k] == v.Blocked()[k])
  {
  }

  lemma StoredOther(v: View, key: Key, nodeAllocated: bool, stamp: Stamp, lowStamp: Stamp, k: Key)
    requires k != key
    ensures k in v.Stored(key, nodeAllocated, stamp, lowStamp).Blocked() <==> k in v.Blocked()
    ensures k in v.Blocked() ==> v.Stored(key, nodeAllocated, stamp, lowStamp).Blocked()[k] == v.Blocked()[k]
  {
    hide View.Without, View.Blocked;
    WithoutOther(v, key, k);
    AddedOther(v.Without(key), key, stamp, k);
    AddedOther(v.Without(key), key, lowStamp, k);
  }

  lemma StoredOtherTable(v: View, key: Key, nodeAllocated: bool, stamp: Stamp, lowStamp: Stamp, k: Key)
    requires k != key
    ensures k in v.Stored(key, nodeAllocated, stamp, lowStamp).table <==> k in v.table
  {
    hide View.Without, View.Blocked;
    WithoutOther(v, key, k);
  }

  lemma StoredSame(v: View, key: Key, nodeAllocated: bool, stamp: Stamp, lowStamp: Stamp)
    ensures key in v.Stored(key, nodeAllocated, stamp, lowStamp).Blocked()
            <==> nodeAllocated || |v.Without(key).low| < POOL_SIZE
    ensures nodeAllocated || |v.Without(key).low| < POOL_SIZE ==>
            v.Stored(key, nodeAllocated, stamp, lowStamp).Blocked()[key] == if nodeAllocated then stamp else lowStamp
    ensures key in v.Stored(key, nodeAllocated, stamp, lowStamp).table <==> nodeAllocated
  {
  }

  lemma PurgedAt(v: View, now: Stamp, k: Key)
    requires v.Consistent()
    ensures k in v.Purged(now).Blocked() <==>
            k in v.Blocked() && (v.Blocked()[k] > ExpiryTime(now) || v.Shielded(k, ExpiryTime(now)))
    ensures k in v.Purged(now).Blocked() ==>
            && v.Purged(now).Blocked()[k] == v.Blocked()[k]
            && (k in v.Purged(now).table <==> k in v.table)
  {
    KeptExactly(v, k, ExpiryTime(now));
    ShieldedListed(v, k, ExpiryTime(now));
    hide Kept, View.Shielded, ExpiryTime;
  }

  /** What shields a new entry: any other entry of the table that is not stale. */
  lemma OwnShield(v: View, key: Key, nodeAllocated: bool, stamp: Stamp, lowStamp: Stamp, expiry: Stamp)
    requires v.Consistent()
    ensures v.Stored(key, nodeAllocated, stamp, lowStamp).Shielded(key, expiry) <==>
            nodeAllocated && exists k :: k in v.table && k != key && v.table[k] > expiry
  {
    var w, r := v.Without(key), v.Stored(key, nodeAllocated, stamp, lowStamp);
    WithoutListed(v, key);
    StoredConsistent(v, key, nodeAllocated, stamp, lowStamp);
    StoredSame(v, key, nodeAllocated, stamp, lowStamp);
    hide Removed, View.Shielded, View.Listed;
    if nodeAllocated {
      FirstShielded(w, key, stamp, expiry);
      assert forall k :: k in w.table <==> k in v.table && k != key;
    } else {
      ShieldedListed(r, key, expiry);
    }
  }

  lemma FirstShielded(w: View, key: Key, stamp: Stamp, expiry: Stamp)
    requires w.Listed() && key !in w.table
    ensures w.(table := w.table[key := stamp], order := [key] + w.order).Shielded(key, expiry) <==>
            exists k :: k in w.table && w.table[k] > expiry
  {
    var r := w.(table := w.table[key := stamp], order := [key] + w.order);
    if r.Shielded(key, expiry) {
      var i, j :| 0 <= i < j < |r.order| && r.order[i] == key && r.order[j] in r.table && r.table[r.order[j]] > expiry;
      assert w.order[j - 1] == r.order[j] && w.order[j - 1] in w.order;
    } else {
      forall k | k in w.table ensures w.table[k] <= expiry {
        FirstIsShielded(w, key, stamp, expiry, k);
      }
    }
  }

  lemma FirstIsShielded(w: View, key: Key, stamp: Stamp, expiry: Stamp, k: Key)
    requires w.Listed() && key !in w.table && k in w.table
    ensures w.table[k] > expiry ==> w.(table := w.table[key := stamp], order := [key] + w.order).Shielded(key, expiry)
  {
    var r := w.(table := w.table[key := stamp], order := [key] + w.order);
    var j :| 0 <= j < |w.order| && w.order[j] == k;
    assert r.order[0] == key && r.order[j + 1] == k;
  }

  lemma ShieldedListed(v: View, k: Key, expiry: Stamp)
    requires v.Listed()
    ensures v.Shielded(k, expiry) ==> k in v.table
  {
  }
}

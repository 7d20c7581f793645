/** Runs of the two-layer connect protocol: any number of connections, any interleaving of
    CONNECT_REDIRECT and AUTH_CONNECT calls on one blocked-connection store. */
module ConnectProtocol {
  import opened Compartments
  import opened ConnectionContexts
  import opened ConnectClassify
  import opened BlockedContextStore
  import StoreShape

  /** A call of one of the two callbacks. The times and the outcome of the node allocation matter only when the call
      inserts. */
  datatype Event =
    | RedirectCall(redirect: Redirect, nodeAllocated: bool, stamp: Stamp, lowStamp: Stamp, purgeTime: Stamp)
    | AuthCall(auth: Auth)
  {
    predicate Inserts() {
      RedirectCall? && redirect.Rejects()
    }

    /** The call ends on key `k`: it inserts, removes or looks up exactly this key. */
    predicate Touches(k: Key) {
      match this
      case RedirectCall(r, _, _, _, _) => r.ExitKey() == k
      case AuthCall(a) => a.LooksUp() && a.LookupKey() == k
    }

    function Apply(v: View): View {
      match this
      case RedirectCall(r, nodeAllocated, stamp, lowStamp, purgeTime) =>
        if r.Rejects() then v.Inserted(r.ExitKey(), nodeAllocated, stamp, lowStamp, purgeTime)
        else v.Without(r.ExitKey())
      case AuthCall(a) =>
        if a.LooksUp() then v.Without(a.LookupKey()) else v
    }

    /** The time the call's own entry carries: a pool context is stamped later than a node. */
    function EntryStamp(): Stamp
      requires Inserts()
    {
      if nodeAllocated then stamp else lowStamp
    }

    /** The store when the call comes to its purge. */
    function AtPurge(v: View): View
      requires Inserts()
    {
      v.Stored(redirect.ExitKey(), nodeAllocated, stamp, lowStamp)
    }

    /** The clock runs forward under the lock. */
    predicate Possible(v: View) {
      Inserts() ==> stamp <= lowStamp <= purgeTime && v.NotAfter(lowStamp)
    }
  }

  /** The store after the calls of a run, oldest first. */
  function After(run: seq<Event>): View {
    if run == [] then EMPTY_VIEW else run[|run| - 1].Apply(After(run[..|run| - 1]))
  }

  // ---- the classify callbacks on the store ----

  method RedirectClassify(store: Store, call: Event)
    requires call.RedirectCall? && store.Valid() && call.Possible(store.Contents())
    modifies store
    ensures store.Valid() && store.Contents() == call.Apply(old(store.Contents()))
  {
    hide StoreShape.Linked, StoreShape.AsView;
    var r := call.redirect;
    if r.Exit().0 == REJECT {
      store.Insert(r.ExitKey(), call.nodeAllocated, call.stamp, call.lowStamp, call.purgeTime);
    } else {
      var found := store.FindAndRemove(r.ExitKey());
    }
  }

  method AuthClassify(store: Store, call: Event) returns (blocked: bool)
    requires call.AuthCall? && store.Valid()
    modifies store
    ensures store.Valid() && store.Contents() == call.Apply(old(store.Contents()))
    ensures blocked <==> call.auth.Blocks(call.auth.LookupKey() in old(store.Contents()).Blocked())
  {
    hide StoreShape.Linked, StoreShape.AsView;
    var a := call.auth;
    if !a.hasFilterContext {
      return true;
    }
    if a.reauthorize {
      return false;
    }
    if !Covers(a.filterCompartment, a.address.compartment) {
      return false;
    }
    blocked := store.FindAndRemove(a.LookupKey());
  }

  // ---- one step, seen from one key ----

  lemma ApplyConsistent(v: View, e: Event)
    requires v.Consistent()
    ensures e.Apply(v).Consistent()
  {
    hide View.Consistent, View.Without, View.Stored, View.Purged, View.Shielded;
    match e
    case AuthCall(a) =>
      WithoutConsistent(v, a.LookupKey());
    case RedirectCall(r, nodeAllocated, stamp, lowStamp, purgeTime) =>
      WithoutConsistent(v, r.ExitKey());
      StoredConsistent(v, r.ExitKey(), nodeAllocated, stamp, lowStamp);
      PurgedConsistent(v.Stored(r.ExitKey(), nodeAllocated, stamp, lowStamp), purgeTime);
  }

  lemma {:induction false} AfterConsistent(run: seq<Event>)
    ensures After(run).Consistent()
  {
    if run != [] {
      AfterConsistent(run[..|run| - 1]);
      ApplyConsistent(After(run[..|run| - 1]), run[|run| - 1]);
    }
  }

  /** A call on another key leaves the entry of `k`, unless the call inserts, the entry is stale by then and nothing
      shields it from the purge. */
  lemma UntouchedStep(v: View, e: Event, k: Key)
    requires v.Consistent() && !e.Touches(k)
    ensures k in e.Apply(v).Blocked() <==>
            && k in v.Blocked()
            && (e.Inserts() ==>
                  v.Blocked()[k] > ExpiryTime(e.purgeTime) || e.AtPurge(v).Shielded(k, ExpiryTime(e.purgeTime)))
    ensures k in e.Apply(v).Blocked() ==>
            e.Apply(v).Blocked()[k] == v.Blocked()[k] && (k in e.Apply(v).table <==> k in v.table)
  {
    hide ExpiryTime, View.Consistent, View.Without, View.Stored, View.Purged, View.Shielded;
    match e
    case AuthCall(a) =>
      if a.LooksUp() {
        WithoutOther(v, a.LookupKey(), k);
      }
    case RedirectCall(r, nodeAllocated, stamp, lowStamp, purgeTime) =>
      WithoutOther(v, r.ExitKey(), k);
      StoredConsistent(v, r.ExitKey(), nodeAllocated, stamp, lowStamp);
      StoredOther(v, r.ExitKey(), nodeAllocated, stamp, lowStamp, k);
      StoredOtherTable(v, r.ExitKey(), nodeAllocated, stamp, lowStamp, k);
      PurgedAt(v.Stored(r.ExitKey(), nodeAllocated, stamp, lowStamp), purgeTime, k);
  }

  lemma TouchedStep(v: View, e: Event, k: Key)
    requires v.Consistent() && e.Touches(k)
    ensures k in e.Apply(v).Blocked() <==>
            && e.Inserts()
            && (e.nodeAllocated || |v.Without(k).low| < POOL_SIZE)
            && (e.EntryStamp() > ExpiryTime(e.purgeTime) || e.AtPurge(v).Shielded(k, ExpiryTime(e.purgeTime)))
    ensures k in e.Apply(v).Blocked() ==>
            e.Apply(v).Blocked()[k] == e.EntryStamp() && (k in e.Apply(v).table <==> e.nodeAllocated)
  {
    hide ExpiryTime, View.Consistent, View.Without, View.Stored, View.Purged, View.Shielded;
    WithoutConsistent(v, k);
    if e.RedirectCall? {
      StoredConsistent(v, k, e.nodeAllocated, e.stamp, e.lowStamp);
      StoredSame(v, k, e.nodeAllocated, e.stamp, e.lowStamp);
      PurgedAt(v.Stored(k, e.nodeAllocated, e.stamp, e.lowStamp), e.purgeTime, k);
    }
  }

  // ---- which keys are blocked after a run ----

  predicate LastTouch(run: seq<Event>, k: Key, i: nat) {
    && i < |run| && run[i].Touches(k)
    && forall j :: i < j < |run| ==> !run[j].Touches(k)
  }

  /** Call `i` rejected its connection and found a node or a free pool context for it. */
  predicate Recorded(run: seq<Event>, k: Key, i: nat)
    requires i < |run|
  {
    run[i].Inserts() && (run[i].nodeAllocated || |After(run[..i]).Without(k).low| < POOL_SIZE)
  }

  /** The purge of call `purger`, on the store `v`, does not remove the entry of call `e`: it is not stale, or shielded by
      an entry that is not. */
  predicate Spares(v: View, purger: Event, e: Event)
    requires purger.Inserts() && e.Inserts()
  {
    || e.EntryStamp() > ExpiryTime(purger.purgeTime)
    || purger.AtPurge(v).Shielded(e.redirect.ExitKey(), ExpiryTime(purger.purgeTime))
  }

  /** No purge from call `i` on removes the entry of call `i`. */
  predicate Survives(run: seq<Event>, i: nat)
    requires i < |run| && run[i].Inserts()
  {
    forall j :: i <= j < |run| && run[j].Inserts() ==> Spares(After(run[..j]), run[j], run[i])
  }

  lemma InsertedKey(e: Event, k: Key)
    requires e.Touches(k) && e.Inserts()
    ensures e.redirect.ExitKey() == k
  {
  }

  lemma {:induction false} BlockedIf(run: seq<Event>, k: Key, i: nat)
    requires LastTouch(run, k, i) && Recorded(run, k, i) && Survives(run, i)
    ensures k in After(run).Blocked() && After(run).Blocked()[k] == run[i].EntryStamp()
    ensures k in After(run).table <==> run[i].nodeAllocated
  {
    hide ExpiryTime, View.Shielded, View.Blocked, View.Consistent, View.Without, Event.AtPurge, Event.Apply, Event.Touches,
      Event.Inserts;
    var n := |run| - 1;
    var before := run[..n];
    InsertedKey(run[i], k);
    AfterConsistent(before);
    if i == n {
      TouchedStep(After(before), run[n], k);
    } else {
      SurvivesPrefix(run, k, i, n);
      BlockedIf(before, k, i);
      UntouchedStep(After(before), run[n], k);
    }
  }

  lemma SurvivesPrefix(run: seq<Event>, k: Key, i: nat, n: nat)
    requires i < n <= |run| && LastTouch(run, k, i) && Recorded(run, k, i) && Survives(run, i)
    ensures LastTouch(run[..n], k, i) && Recorded(run[..n], k, i) && Survives(run[..n], i)
  {
    hide After, Event.Inserts, Event.Touches, Spares, View.Without;
    assert run[..n][..i] == run[..i];
    forall j | i <= j < n && run[j].Inserts() ensures Spares(After(run[..n][..j]), run[j], run[i]) {
      assert run[..n][..j] == run[..j];
    }
  }

  lemma {:induction false} BlockedOnlyIf(run: seq<Event>, k: Key) returns (i: nat)
    requires k in After(run).Blocked()
    ensures LastTouch(run, k, i) && Recorded(run, k, i) && Survives(run, i)
    ensures After(run).Blocked()[k] == run[i].EntryStamp() && (k in After(run).table <==> run[i].nodeAllocated)
  {
    hide ExpiryTime, View.Consistent, View.Without, Event.Apply, Event.Touches, Event.Inserts;
    assert run != [];
    hide View.Blocked;
    var n := |run| - 1;
    AfterConsistent(run[..n]);
    if run[n].Touches(k) {
      TouchedStep(After(run[..n]), run[n], k);
      i := n;
      InsertedKey(run[n], k);
    } else {
      UntouchedStep(After(run[..n]), run[n], k);
      i := BlockedOnlyIf(run[..n], k);
      InsertedKey(run[i], k);
      OneMoreCall(run, k, i);
    }
  }

  lemma OneMoreCall(run: seq<Event>, k: Key, i: nat)
    requires |run| > 0 && LastTouch(run[..|run| - 1], k, i) && !run[|run| - 1].Touches(k)
    requires Recorded(run[..|run| - 1], k, i) && Survives(run[..|run| - 1], i)
    requires run[|run| - 1].Inserts() ==> Spares(After(run[..|run| - 1]), run[|run| - 1], run[i])
    ensures LastTouch(run, k, i) && Recorded(run, k, i) && Survives(run, i)
  {
    hide After, View.Without, Event.Touches, Event.Inserts, Spares;
    var n := |run| - 1;
    assert run[..n][..i] == run[..i];
    forall j | i <= j < |run| && run[j].Inserts() ensures Spares(After(run[..j]), run[j], run[i]) {
      if j < n {
        assert run[..n][..j] == run[..j] && run[..n][j] == run[j];
      }
    }
  }

  /** The store after a run, in terms of the run alone: a key is blocked exactly when the last call
      that ended on it was a REJECT, this REJECT was recorded, and no purge since removed it. */
  lemma BlockedExactly(run: seq<Event>, k: Key)
    ensures k in After(run).Blocked() <==>
            exists i: nat :: LastTouch(run, k, i) && Recorded(run, k, i) && Survives(run, i)
  {
    if k in After(run).Blocked() {
      var i := BlockedOnlyIf(run, k);
    }
    forall i: nat | LastTouch(run, k, i) && Recorded(run, k, i) && Survives(run, i)
      ensures k in After(run).Blocked()
    {
      BlockedIf(run, k, i);
    }
  }

  /** AUTH_CONNECT blocks a connection it looked up only because of a REJECT: the last call on the
      key, of either layer, was a redirect call that ended in REJECT. */
  lemma BlockNeedsReject(run: seq<Event>, a: Auth)
    requires a.LooksUp() && a.Blocks(a.LookupKey() in After(run).Blocked())
    ensures exists i: nat :: LastTouch(run, a.LookupKey(), i) && run[i].Inserts()
  {
    var i := BlockedOnlyIf(run, a.LookupKey());
  }

  /** A recorded REJECT is enforced at the next lookup within a minute. Purges need a clock past the
      first minute; no other call may end on the key. */
  lemma RejectIsEnforced(run: seq<Event>, a: Auth, i: nat)
    requires a.LooksUp() && LastTouch(run, a.LookupKey(), i) && Recorded(run, a.LookupKey(), i)
    requires forall j :: i <= j < |run| && run[j].Inserts() ==>
               60000 <= run[j].purgeTime < run[i].EntryStamp() + 60000
    ensures a.Blocks(a.LookupKey() in After(run).Blocked())
  {
    BlockedIf(run, a.LookupKey(), i);
  }

  /** During the first minute of the clock a REJECT is lost: its own purge drops every entry. */
  lemma FirstMinuteForgets(run: seq<Event>, last: Event, k: Key)
    requires last.Inserts() && last.purgeTime < 60000 && last.Possible(After(run))
    ensures k !in After(run + [last]).Blocked()
  {
    AllStale(After(run), last, k);
    hide Event.Apply;
    assert (run + [last])[..|run|] == run;
    AfterConsistent(run);
    if last.Touches(k) {
      TouchedStep(After(run), last, k);
    } else {
      UntouchedStep(After(run), last, k);
    }
  }

  /** In the first minute every entry is stale, so nothing shields another. */
  lemma AllStale(v: View, e: Event, k: Key)
    requires e.Inserts() && e.purgeTime < 60000 && e.Possible(v)
    ensures !e.AtPurge(v).Shielded(k, ExpiryTime(e.purgeTime))
    ensures k in v.Blocked() ==> v.Blocked()[k] <= ExpiryTime(e.purgeTime)
    ensures e.EntryStamp() <= ExpiryTime(e.purgeTime)
  {
    hide Removed;
  }

  /** An entry survives the purge of its own insertion exactly when the clock is past the first minute, and less than
      a minute has passed since its own stamp, or it is a node and less than a minute has passed since that of another
      entry of the table. */
  lemma OwnPurge(v: View, key: Key, nodeAllocated: bool, stamp: Stamp, lowStamp: Stamp, purgeTime: Stamp)
    requires v.Consistent() && stamp <= lowStamp <= purgeTime && v.NotAfter(lowStamp)
    requires nodeAllocated || |v.Without(key).low| < POOL_SIZE
    ensures key in v.Inserted(key, nodeAllocated, stamp, lowStamp, purgeTime).Blocked() <==>
            && 60000 <= purgeTime
            && (|| purgeTime < (if nodeAllocated then stamp else lowStamp) + 60000
                || (nodeAllocated && exists k :: k in v.table && k != key && purgeTime as int < v.table[k] as int + 60000))
  {
    StoredConsistent(v, key, nodeAllocated, stamp, lowStamp);
    StoredSame(v, key, nodeAllocated, stamp, lowStamp);
    OwnShield(v, key, nodeAllocated, stamp, lowStamp, ExpiryTime(purgeTime));
    hide View.Consistent, View.Without, View.Stored, View.Purged, View.Blocked, View.Shielded;
    PurgedAt(v.Stored(key, nodeAllocated, stamp, lowStamp), purgeTime, key);
  }

  // ---- connections ----

  /** The call ends on this connection: the endpoint and every field of the address are its own. */
  predicate EndsOn(e: Event, endpoint: nat, a: SockAddr) {
    match e
    case RedirectCall(r, _, _, _, _) => r.endpoint == endpoint && SameAddress(r.Exit().1, a)
    case AuthCall(x) => x.LooksUp() && x.endpoint == endpoint && SameAddress(x.address, a)
  }

  lemma TouchesExactly(e: Event, endpoint: nat, a: SockAddr)
    ensures e.Touches(KeyOf(endpoint, a)) <==> EndsOn(e, endpoint, a)
  {
    match e
    case RedirectCall(r, _, _, _, _) => KeyExactly(r.endpoint, r.Exit().1, endpoint, a);
    case AuthCall(x) => KeyExactly(x.endpoint, x.address, endpoint, a);
    hide SameAddress, KeyOf, Redirect.Exit;
  }

  /** A call that ends on another connection, in whatever field it differs, does not record, clear or consume the REJECT
      of this one: an entry appears by none, and disappears only by a purge that finds it stale. */
  lemma OtherConnection(run: seq<Event>, e: Event, endpoint: nat, a: SockAddr)
    requires !EndsOn(e, endpoint, a)
    ensures var k, v := KeyOf(endpoint, a), After(run);
            k in After(run + [e]).Blocked() <==>
            && k in v.Blocked()
            && (e.Inserts() ==>
                  v.Blocked()[k] > ExpiryTime(e.purgeTime) || e.AtPurge(v).Shielded(k, ExpiryTime(e.purgeTime)))
  {
    TouchesExactly(e, endpoint, a);
    AfterConsistent(run);
    assert (run + [e])[..|run|] == run;
    hide EndsOn, Event.Touches, Event.Apply, Event.Inserts, View.Consistent, View.Blocked, View.Shielded, ExpiryTime;
    UntouchedStep(After(run), e, KeyOf(endpoint, a));
  }

  /** Call i rejected this connection, recorded that, and was the last call of it; no purge has removed the entry. */
  predicate RejectedLast(run: seq<Event>, endpoint: nat, a: SockAddr, i: nat) {
    && i < |run| && run[i].Inserts() && EndsOn(run[i], endpoint, a)
    && (forall j :: i < j < |run| ==> !EndsOn(run[j], endpoint, a))
    && Recorded(run, KeyOf(endpoint, a), i) && Survives(run, i)
  }

  /** AUTH_CONNECT blocks a connection that it looks up exactly when the last call of this very connection, at either
      layer, was a REJECT that was recorded and that every purge since has spared. */
  lemma ConnectionBlockedExactly(run: seq<Event>, x: Auth)
    requires x.LooksUp()
    ensures x.Blocks(x.LookupKey() in After(run).Blocked()) <==> exists i: nat :: RejectedLast(run, x.endpoint, x.address, i)
  {
    var k := KeyOf(x.endpoint, x.address);
    forall j | 0 <= j < |run| ensures run[j].Touches(k) <==> EndsOn(run[j], x.endpoint, x.address) {
      TouchesExactly(run[j], x.endpoint, x.address);
    }
    BlockedExactly(run, k);
    hide After, EndsOn, Event.Touches, Event.Inserts, View.Blocked, Survives, KeyOf;
    assert forall i: nat :: RejectedLast(run, x.endpoint, x.address, i) <==>
             LastTouch(run, k, i) && Recorded(run, k, i) && Survives(run, i);
  }

  /** A REJECT of the program is recorded for the address that the program left. So AUTH_CONNECT enforces it for a
      connection exactly when the program left this connection's address, and not when it changed the destination
      before it rejected. */
  lemma RejectIsForAddressLeft(run: seq<Event>, i: nat, x: Auth)
    requires i < |run| && run[i].Inserts() && run[i].redirect.Invokes() && x.LooksUp()
    requires var r := run[i].redirect;
             && LastTouch(run, r.ExitKey(), i) && Recorded(run, r.ExitKey(), i) && Survives(run, i)
    requires forall j :: 0 <= j < |run| && j != i ==> !EndsOn(run[j], x.endpoint, x.address)
    ensures x.Blocks(x.LookupKey() in After(run).Blocked()) <==>
            run[i].redirect.endpoint == x.endpoint && SameAddress(run[i].redirect.left, x.address)
  {
    var r := run[i].redirect;
    LeftIsExit(r);
    ConnectionBlockedExactly(run, x);
    KeyExactly(r.endpoint, r.left, x.endpoint, x.address);
    hide After, Survives, Event.Touches, Redirect.Exit, Redirect.Invokes, SameAddress, KeyOf, View.Blocked;
    if r.endpoint == x.endpoint && SameAddress(r.left, x.address) {
      assert RejectedLast(run, x.endpoint, x.address, i);
    }
  }

  lemma LeftIsExit(r: Redirect)
    requires r.Invokes() && r.Rejects()
    ensures r.Exit().1 == r.left
  {
  }

  /** A call of AUTH_CONNECT that does not look up leaves no trace: a reauthorization, a call without a filter context,
      and one for another compartment can be taken out of a run. */
  lemma {:induction false} NoTrace(before: seq<Event>, x: Auth, after: seq<Event>)
    requires !x.hasFilterContext || x.reauthorize || !Covers(x.filterCompartment, x.address.compartment)
    ensures After(before + [AuthCall(x)] + after) == After(before + after)
    decreases |after|
  {
    if after == [] {
      AfterNext(before, AuthCall(x));
      assert before + [AuthCall(x)] + after == before + [AuthCall(x)] && before + after == before;
      hide After;
    } else {
      var n := |after| - 1;
      var last := after[n];
      hide After, Event.Apply;
      NoTrace(before, x, after[..n]);
      AfterNext(before + [AuthCall(x)] + after[..n], last);
      AfterNext(before + after[..n], last);
      assert before + [AuthCall(x)] + after == before + [AuthCall(x)] + after[..n] + [last];
      assert before + after == before + after[..n] + [last];
    }
  }

  lemma AfterNext(run: seq<Event>, e: Event)
    ensures After(run + [e]) == e.Apply(After(run))
  {
    hide Event.Apply;
    assert (run + [e])[..|run|] == run;
  }

  /** And its action does not depend on the run: a reauthorization is permitted, and so is a connection of a compartment
      that the filter is not for; without a filter context the connection is blocked. */
  lemma ActionWithoutLookup(x: Auth, found: bool)
    ensures x.hasFilterContext && x.reauthorize ==> !x.Blocks(found)
    ensures x.hasFilterContext && x.filterCompartment != 0 && x.filterCompartment != x.address.compartment ==> !x.Blocks(found)
    ensures !x.hasFilterContext ==> x.Blocks(found)
  {
  }

  // ---- one REJECT, at most one block ----

  function Rejections(run: seq<Event>, k: Key): nat {
    if run == [] then 0
    else Rejections(run[..|run| - 1], k) + if run[|run| - 1].Inserts() && run[|run| - 1].Touches(k) then 1 else 0
  }

  /** The lookups of `k` that found an entry. */
  function Enforcements(run: seq<Event>, k: Key): nat {
    if run == [] then 0
    else
      var last, before := run[|run| - 1], run[..|run| - 1];
      Enforcements(before, k) + if last.AuthCall? && last.Touches(k) && k in After(before).Blocked() then 1 else 0
  }

  /** The REJECTs of `k` that came to nothing: a later verdict cleared or replaced an entry, a purge dropped it, or
      the call that was to record it did not. */
  function Losses(run: seq<Event>, k: Key): nat {
    if run == [] then 0
    else
      var last, before := run[|run| - 1], run[..|run| - 1];
      Losses(before, k)
      + (if k in After(before).Blocked() && (if last.Touches(k) then last.RedirectCall? else k !in After(run).Blocked())
         then 1 else 0)
      + (if last.Inserts() && last.Touches(k) && k !in After(run).Blocked() then 1 else 0)
  }

  /** Every REJECT is accounted for: it was enforced once, it is still there, or it was lost. */
  lemma {:induction false} RejectsConserved(run: seq<Event>, k: Key)
    ensures Rejections(run, k) == Enforcements(run, k) + Losses(run, k) + if k in After(run).Blocked() then 1 else 0
  {
    hide ExpiryTime, View.Consistent, View.Without, Event.Apply, Event.Touches;
    if run != [] {
      var last, before := run[|run| - 1], run[..|run| - 1];
      AfterConsistent(before);
      RejectsConserved(before, k);
      if last.Touches(k) {
        TouchedStep(After(before), last, k);
      } else {
        UntouchedStep(After(before), last, k);
      }
    }
  }

  lemma OneBlockPerReject(run: seq<Event>, k: Key)
    ensures Enforcements(run, k) + (if k in After(run).Blocked() then 1 else 0) <= Rejections(run, k)
  {
    RejectsConserved(run, k);
    hide Rejections, Enforcements, Losses, After, View.Blocked;
  }

  // ---- a later verdict for the same connection ----

  /** Both calls are for one connection, passed its address on, and kept its destination. */
  predicate SameConnection(r: Redirect, s: Redirect) {
    && r.endpoint == s.endpoint && r.address == s.address && r.KeepsDestination() && s.KeepsDestination()
    && r.writable && r.hasFilterContext && !r.detached
    && s.writable && s.hasFilterContext && !s.detached
  }

  /** A redirect call that does not reject is meant to clear the stale REJECT of the same connection, however many calls
      on other keys came in between. It does so exactly when both calls, or neither, end with an address converted to
      IPv4. */
  lemma StaleRejectCleared(run: seq<Event>, i: nat, later: Event)
    requires i < |run| && run[i].Inserts() && later.RedirectCall? && !later.redirect.Rejects()
    requires var k := run[i].redirect.ExitKey();
             LastTouch(run, k, i) && Recorded(run, k, i) && Survives(run, i)
    requires SameConnection(run[i].redirect, later.redirect)
    ensures run[i].redirect.ExitKey() !in After(run + [later]).Blocked() <==>
            (run[i].redirect.Converted() <==> later.redirect.Converted())
  {
    hide ExpiryTime, Event.Apply, View.Consistent, View.Blocked, View.Without;
    hide Redirect.ExitKey, Redirect.Converted, Redirect.KeepsDestination, Redirect.Rejects;
    var k := run[i].redirect.ExitKey();
    assert (run + [later])[..|run|] == run;
    SameExitKey(run[i].redirect, later.redirect);
    AfterConsistent(run);
    BlockedIf(run, k, i);
    if later.Touches(k) {
      TouchedStep(After(run), later, k);
    } else {
      UntouchedStep(After(run), later, k);
    }
  }

  /** An IPv4-mapped connection, rejected and then allowed, is still blocked at AUTH_CONNECT. */
  lemma AllowedButStillBlocked() returns (run: seq<Event>, a: Auth)
    ensures |run| == 2 && run[0].Inserts() && run[1].RedirectCall? && !run[1].redirect.Rejects()
    ensures SameConnection(run[0].redirect, run[1].redirect)
    ensures a.LooksUp() && a.endpoint == run[0].redirect.endpoint && a.address == ToV4(run[0].redirect.address)
    ensures a.Blocks(a.LookupKey() in After(run).Blocked())
  {
    var address := SockAddr(AF_INET6, 1024, Ip(0, 0, V4_MAPPED_PREFIX, 0x0100007F), 80, 6, 1);
    var first := Redirect(1, true, true, false, address, 1, true, false, true, true, true, REJECT, ToV4(address));
    var r0 := RedirectCall(first, true, EXPIRY_TIME, EXPIRY_TIME, EXPIRY_TIME);
    var r1 := RedirectCall(first.(verdict := PROCEED), true, EXPIRY_TIME, EXPIRY_TIME, EXPIRY_TIME);
    run := [r0] + [r1];
    a := Auth(1, true, ToV4(address), false, 1);
    assert [r0][..0] == [] && After([]) == EMPTY_VIEW;
    StaleRejectCleared([r0], 0, r1);
    assert a.LookupKey() == first.ExitKey();
  }

  /** Suppose that WFP shows AUTH_CONNECT an IPv4-mapped connection in its IPv4 form, as the assumption on the address of
      `a` says. Then the REJECT of such a connection is enforced exactly
      when it was the program's: one that was given without asking the program, because the client is running down or
      has no redirect handle, is stored under the mapped address, where no lookup finds it. */
  lemma MappedRejectEnforced(run: seq<Event>, i: nat, a: Auth)
    requires i < |run| && run[i].Inserts() && a.LooksUp()
    requires var r := run[i].redirect;
             && r.writable && r.hasFilterContext && !r.detached && V4Mapped(r.address) && r.KeepsDestination()
             && a.endpoint == r.endpoint && a.address == ToV4(r.address)
             && LastTouch(run, r.ExitKey(), i) && Recorded(run, r.ExitKey(), i) && Survives(run, i)
    requires forall j :: 0 <= j < |run| && j != i ==> !run[j].Touches(a.LookupKey())
    ensures a.Blocks(a.LookupKey() in After(run).Blocked()) <==> run[i].redirect.Invokes()
  {
    var r := run[i].redirect;
    ExitAddress(r);
    RejectsExactly(r);
    assert r.Converted() <==> r.Invokes();
    assert r.ExitKey() == a.LookupKey() <==> r.Converted();
    hide ExpiryTime, Event.Apply, View.Consistent, View.Blocked, View.Without;
    hide Redirect.Converted, Redirect.KeepsDestination, Redirect.Rejects, Redirect.Exit, Redirect.Invokes;
    BlockedIf(run, r.ExitKey(), i);
    if r.ExitKey() != a.LookupKey() && a.LookupKey() in After(run).Blocked() {
      var j := BlockedOnlyIf(run, a.LookupKey());
      assert false;
    }
  }

  // ---- the callbacks, call after call, on one store ----

  /** The clock does not run backwards under the lock, over the insertions of a run that starts at `clock`. A node is
      stamped before the lock is taken, and may have waited for it. */
  predicate Clocked(run: seq<Event>, clock: Stamp)
    decreases |run|
  {
    run == [] ||
    if run[0].Inserts()
    then && run[0].stamp <= run[0].lowStamp && clock <= run[0].lowStamp <= run[0].purgeTime
         && Clocked(run[1..], run[0].purgeTime)
    else Clocked(run[1..], clock)
  }

  /** And no node waited while another insertion went ahead. */
  predicate Sequential(run: seq<Event>, clock: Stamp)
    decreases |run|
  {
    run == [] ||
    if run[0].Inserts() then clock <= run[0].stamp && Sequential(run[1..], run[0].purgeTime) else Sequential(run[1..], clock)
  }

  lemma ApplyNotAfter(v: View, e: Event, clock: Stamp)
    requires v.NotAfter(clock)
    requires e.Inserts() ==> e.stamp <= e.lowStamp && clock <= e.lowStamp <= e.purgeTime
    ensures e.Possible(v)
    ensures e.Inserts() ==> e.Apply(v).NotAfter(e.purgeTime) && (clock <= e.stamp ==> v.NotAfter(e.stamp))
    ensures !e.Inserts() ==> e.Apply(v).NotAfter(clock)
  {
    hide View.NotAfter, View.Stored, View.Purged, View.Without;
    if e.Inserts() {
      LaterNotAfter(v, clock, e.lowStamp);
      LaterNotAfter(v, clock, e.stamp);
      StoredNotAfter(v, e.redirect.ExitKey(), e.nodeAllocated, e.stamp, e.lowStamp, e.purgeTime);
      PurgedNotAfter(e.AtPurge(v), e.purgeTime, e.purgeTime);
    } else if e.RedirectCall? {
      WithoutNotAfter(v, e.redirect.ExitKey(), clock);
    } else if e.auth.LooksUp() {
      WithoutNotAfter(v, e.auth.LookupKey(), clock);
    }
  }

  lemma LaterNotAfter(v: View, clock: Stamp, later: Stamp)
    requires v.NotAfter(clock)
    ensures clock <= later ==> v.NotAfter(later)
  {
  }

  lemma WithoutNotAfter(v: View, k: Key, clock: Stamp)
    requires v.NotAfter(clock)
    ensures v.Without(k).NotAfter(clock)
  {
    hide Removed;
  }

  lemma StoredNotAfter(v: View, k: Key, nodeAllocated: bool, stamp: Stamp, lowStamp: Stamp, clock: Stamp)
    requires v.NotAfter(lowStamp) && stamp <= lowStamp <= clock
    ensures v.Stored(k, nodeAllocated, stamp, lowStamp).NotAfter(clock)
  {
    hide Removed;
  }

  lemma PurgedNotAfter(v: View, now: Stamp, clock: Stamp)
    requires v.NotAfter(clock)
    ensures v.Purged(now).NotAfter(clock)
  {
    hide Kept;
  }

  lemma WithoutInOrder(v: View, key: Key)
    requires v.Listed() && v.InOrder()
    ensures v.Without(key).InOrder()
  {
    var r := v.Without(key);
    forall i, j | 0 <= i < j < |r.order| && r.order[i] in r.table && r.order[j] in r.table
      ensures r.table[r.order[i]] >= r.table[r.order[j]]
    {
      var a, b := RemovedPair(v.order, key, i, j);
    }
  }

  lemma AddedInOrder(v: View, key: Key, stamp: Stamp)
    requires v.Listed() && v.InOrder() && key !in v.table && forall k :: k in v.table ==> v.table[k] <= stamp
    ensures v.(table := v.table[key := stamp], order := [key] + v.order).InOrder()
  {
    var r := v.(table := v.table[key := stamp], order := [key] + v.order);
    forall i, j | 0 <= i < j < |r.order| ensures r.table[r.order[i]] >= r.table[r.order[j]] {
      assert r.order[j] == v.order[j - 1] && v.order[j - 1] in v.order;
      assert i > 0 ==> r.order[i] == v.order[i - 1] && v.order[i - 1] in v.order;
    }
  }

  lemma PurgedInOrder(v: View, now: Stamp)
    requires v.InOrder()
    ensures v.Purged(now).InOrder()
  {
    KeptPrefix(v.table, v.order, ExpiryTime(now));
    hide Kept;
  }

  lemma AtPurgeInOrder(v: View, e: Event)
    requires v.Consistent() && v.InOrder() && e.Inserts() && v.NotAfter(e.stamp)
    ensures e.AtPurge(v).InOrder()
  {
    var key := e.redirect.ExitKey();
    WithoutInOrder(v, key);
    WithoutListed(v, key);
    AddedInOrder(v.Without(key), key, e.stamp);
    hide Removed, View.Listed;
  }

  lemma ApplyInOrder(v: View, e: Event)
    requires v.Consistent() && v.InOrder() && (e.Inserts() ==> v.NotAfter(e.stamp))
    ensures e.Apply(v).InOrder()
  {
    if e.Inserts() {
      AtPurgeInOrder(v, e);
      PurgedInOrder(e.AtPurge(v), e.purgeTime);
    } else if e.RedirectCall? {
      WithoutInOrder(v, e.redirect.ExitKey());
    } else if e.auth.LooksUp() {
      WithoutInOrder(v, e.auth.LookupKey());
    }
    hide View.InOrder, View.Without, View.Stored, View.Purged, View.Consistent;
  }

  lemma ClockedNext(run: seq<Event>, i: nat, clock: Stamp)
    requires i < |run| && Clocked(run[i..], clock)
    ensures var e, next := run[i], if run[i].Inserts() then run[i].purgeTime else clock;
            && Clocked(run[i + 1..], next)
            && (e.Inserts() ==> e.stamp <= e.lowStamp && clock <= e.lowStamp <= e.purgeTime)
            && (Sequential(run[i..], clock) ==> Sequential(run[i + 1..], next) && (e.Inserts() ==> clock <= e.stamp))
  {
    assert run[i..][1..] == run[i + 1..];
  }

  /** The clock when call i comes, and the store that it finds. */
  lemma {:induction false} ClockAt(run: seq<Event>, i: nat) returns (clock: Stamp)
    requires i <= |run| && Clocked(run, 0)
    ensures After(run[..i]).NotAfter(clock) && Clocked(run[i..], clock)
    ensures Sequential(run, 0) ==> Sequential(run[i..], clock) && After(run[..i]).InOrder()
    ensures i < |run| ==> run[i].Possible(After(run[..i]))
    ensures i < |run| && run[i].Inserts() && Sequential(run, 0) ==> After(run[..i]).NotAfter(run[i].stamp)
    decreases i
  {
    hide View.NotAfter, View.InOrder, Event.Apply, Event.Possible, View.Consistent;
    if i == 0 {
      EmptyInOrder();
      assert run[0..] == run && run[..0] == [];
      clock := 0;
    } else {
      var e, before := run[i - 1], After(run[..i - 1]);
      var c := ClockAt(run, i - 1);
      ClockedNext(run, i - 1, c);
      ApplyNotAfter(before, e, c);
      AfterConsistent(run[..i - 1]);
      if Sequential(run, 0) {
        ApplyInOrder(before, e);
      }
      assert run[..i][..i - 1] == run[..i - 1];
      clock := if e.Inserts() then e.purgeTime else c;
    }
    if i < |run| {
      ClockedNext(run, i, clock);
      ApplyNotAfter(After(run[..i]), run[i], clock);
    }
  }

  lemma EmptyInOrder()
    ensures EMPTY_VIEW.NotAfter(0) && EMPTY_VIEW.InOrder()
  {
  }

  /** No purge from call `i` on finds its entry stale. */
  predicate StaysFresh(run: seq<Event>, i: nat)
    requires i < |run| && run[i].Inserts()
  {
    forall j :: i <= j < |run| && run[j].Inserts() ==> run[i].EntryStamp() > ExpiryTime(run[j].purgeTime)
  }

  /** Where insertions do not overtake each other, nothing is shielded. */
  lemma SparedIsFresh(run: seq<Event>, k: Key, i: nat, j: nat)
    requires Clocked(run, 0) && Sequential(run, 0) && i <= j < |run| && run[j].Inserts()
    requires LastTouch(run, k, i) && Recorded(run, k, i) && Survives(run, i)
    ensures run[i].EntryStamp() > ExpiryTime(run[j].purgeTime)
  {
    var v, e := After(run[..j]), run[j];
    InsertedKey(run[i], k);
    assert Spares(v, e, run[i]);
    AfterConsistent(run[..j]);
    var clock := ClockAt(run, j);
    AtPurgeInOrder(v, e);
    AtPurgeEntry(run, k, i, j);
    var expiry := ExpiryTime(e.purgeTime);
    hide ExpiryTime, After, View.InOrder, View.Shielded, View.NotAfter, View.Consistent, Clocked, Sequential, Survives,
      Recorded, LastTouch, Event.AtPurge, Event.Possible, Event.Inserts;
    if run[i].EntryStamp() <= expiry && k in e.AtPurge(v).table {
      InOrderNotShielded(e.AtPurge(v), k, expiry);
    } else {
      ShieldedListed(e.AtPurge(v), k, expiry);
    }
  }

  /** The entry of call i when call j comes to its purge. */
  lemma AtPurgeEntry(run: seq<Event>, k: Key, i: nat, j: nat)
    requires i <= j < |run| && run[j].Inserts() && LastTouch(run, k, i) && Recorded(run, k, i) && Survives(run, i)
    ensures var r := run[j].AtPurge(After(run[..j])); r.Listed() && (k in r.table ==> r.table[k] == run[i].EntryStamp())
  {
    var v, e := After(run[..j]), run[j];
    AfterConsistent(run[..j]);
    StoredConsistent(v, e.redirect.ExitKey(), e.nodeAllocated, e.stamp, e.lowStamp);
    InsertedKey(run[i], k);
    if i == j {
      StoredSame(v, k, e.nodeAllocated, e.stamp, e.lowStamp);
    } else {
      SurvivesPrefix(run, k, i, j);
      BlockedIf(run[..j], k, i);
      OtherKey(e, k);
      StoredOther(v, e.redirect.ExitKey(), e.nodeAllocated, e.stamp, e.lowStamp, k);
    }
    hide View.Stored, After, View.Listed, Survives, Recorded, LastTouch;
  }

  lemma OtherKey(e: Event, k: Key)
    requires e.Inserts() && !e.Touches(k)
    ensures e.redirect.ExitKey() != k
  {
  }

  /** When insertions do not overtake each other, a key is blocked exactly when the last call that ended on it was a
      recorded REJECT and no purge since found it stale. */
  lemma BlockedInSequence(run: seq<Event>, k: Key)
    requires Clocked(run, 0) && Sequential(run, 0)
    ensures k in After(run).Blocked() <==>
            exists i: nat :: LastTouch(run, k, i) && Recorded(run, k, i) && StaysFresh(run, i)
  {
    hide After, View.Blocked, Clocked, Sequential, ExpiryTime, Event.AtPurge, View.Shielded;
    if k in After(run).Blocked() {
      var i := BlockedOnlyIf(run, k);
      forall j | i <= j < |run| && run[j].Inserts() ensures run[i].EntryStamp() > ExpiryTime(run[j].purgeTime) {
        SparedIsFresh(run, k, i, j);
      }
    }
    forall i: nat | LastTouch(run, k, i) && Recorded(run, k, i) && StaysFresh(run, i)
      ensures k in After(run).Blocked()
    {
      assert Survives(run, i);
      BlockedIf(run, k, i);
    }
  }

  /** The action of every AUTH_CONNECT call is the one that the calls before it determine. */
  ghost predicate Actions(run: seq<Event>, blocked: seq<bool>) {
    && |blocked| == |run|
    && forall i :: 0 <= i < |run| && run[i].AuthCall? ==>
         (blocked[i] <==> run[i].auth.Blocks(run[i].auth.LookupKey() in After(run[..i]).Blocked()))
  }

  lemma ActionsNext(run: seq<Event>, n: nat, blocked: seq<bool>, action: bool)
    requires n < |run| && Actions(run[..n], blocked)
    requires run[n].AuthCall? ==> (action <==> run[n].auth.Blocks(run[n].auth.LookupKey() in After(run[..n]).Blocked()))
    ensures Actions(run[..n + 1], blocked + [action]) && After(run[..n + 1]) == run[n].Apply(After(run[..n]))
  {
    hide Auth.Blocks, View.Blocked, Event.Apply;
    assert run[..n + 1][..n] == run[..n];
    forall i | 0 <= i <= n
      ensures run[..n + 1][..i] == run[..i] && (i < n ==> run[..n][..i] == run[..i] && run[..n][i] == run[i])
    {
    }
  }

  /** Running the callbacks on the store computes the run: its contents, and the action of every AUTH_CONNECT call, are
      the ones the calls determine. */
  method Replay(store: Store, run: seq<Event>) returns (blocked: seq<bool>)
    requires store.Valid() && store.Contents() == EMPTY_VIEW && Clocked(run, 0)
    modifies store
    ensures store.Valid() && store.Contents() == After(run) && Actions(run, blocked)
  {
    hide StoreShape.Linked, StoreShape.AsView, View.Blocked, View.NotAfter, Event.Apply, Event.Possible, Auth.Blocks, Actions,
      Clocked, Sequential, View.InOrder;
    blocked := [];
    Beginning(run);
    var i := 0;
    while i < |run|
      invariant 0 <= i <= |run|
      invariant store.Valid() && store.Contents() == After(run[..i]) && Actions(run[..i], blocked)
    {
      ghost var clock := ClockAt(run, i);
      var action := false;
      if run[i].RedirectCall? {
        RedirectClassify(store, run[i]);
      } else {
        action := AuthClassify(store, run[i]);
      }
      ActionsNext(run, i, blocked, action);
      blocked := blocked + [action];
      i := i + 1;
    }
    assert run[..i] == run;
  }

  lemma Beginning(run: seq<Event>)
    ensures After(run[..0]) == EMPTY_VIEW && Actions(run[..0], [])
  {
  }
}

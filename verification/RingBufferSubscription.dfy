/** A ring buffer subscription gives the records of the ring to the subscriber, and is freed by its last completion
    callback or by the unsubscribe call. The model interleaves one unsubscribe call with any number of completion
    callbacks; a section under the subscription's lock is one step. */
module RingBufferSubscription {

  type ThreadId = nat

  /** How the asynchronous query ended: with a number of records to read, cancelled, or with another error. */
  datatype Status = Success(records: nat) | Canceled | Failed

  /** Where a completion callback is: it has not yet read the result; it must record the failure; it must give the
      subscriber the final call; it must look up the map's properties; it reads records, so many from the one with this
      number; it must take the lock, and would tell the kernel that the records before this one are consumed; it must
      delete the subscription. */
  datatype Position =
    | Started(status: Status)
    | MustFail
    | MustNotify
    | MustQuery(records: nat)
    | Reading(records: nat, at: nat)
    | MustLock(told: nat)
    | Deleting

  /** The unsubscribe call. */
  datatype User = Subscribed | UserDeleting | Done

  /** How posting the next query goes. */
  datatype Posting = RegisterFails | PostFails | Posted

  /** `consumer` is how many records the kernel has been told are consumed. */
  datatype State = State(user: User, unsubscribed: bool, failed: bool, outstanding: nat,
                         callbacks: map<ThreadId, Position>, consumer: nat, frees: nat)
  {
    ghost predicate Live() { frees == 0 }
  }

  /** A successful subscribe call has posted the first query. */
  const INITIAL := State(Subscribed, false, false, 1, map[], 0, 0)

  datatype Event =
    | Complete(thread: ThreadId, status: Status)
    | ReadResult(thread: ThreadId)
    | RecordFailure(thread: ThreadId)
    | Notify(thread: ThreadId)
    | QueryProperties(thread: ThreadId, found: bool)
    | Sample(thread: ThreadId, goOn: bool)
    | Finish(thread: ThreadId, posting: Posting)
    | Delete(thread: ThreadId)
    | Unsubscribe
    | UserDelete

  /** The step can be the next one, by the control state of the threads alone. */
  ghost predicate Enabled(s: State, e: Event) {
    match e
    case Complete(t, _) => s.outstanding > 0 && t !in s.callbacks
    case ReadResult(t) => t in s.callbacks && s.callbacks[t].Started?
    case RecordFailure(t) => t in s.callbacks && s.callbacks[t].MustFail?
    case Notify(t) => t in s.callbacks && s.callbacks[t].MustNotify?
    case QueryProperties(t, _) => t in s.callbacks && s.callbacks[t].MustQuery?
    case Sample(t, _) => t in s.callbacks && s.callbacks[t].Reading?
    case Finish(t, posting) =>
      // the kernel takes no consumer position before its own
      t in s.callbacks && s.callbacks[t].MustLock? && (posting.Posted? ==> s.unsubscribed || s.callbacks[t].told >= s.consumer)
    case Delete(t) => t in s.callbacks && s.callbacks[t].Deleting?
    case Unsubscribe => s.user.Subscribed?
    case UserDelete => s.user.UserDeleting?
  }

  function Moved(s: State, t: ThreadId, p: Position): State {
    s.(callbacks := s.callbacks[t := p])
  }

  function Returned(s: State, t: ThreadId): State {
    s.(callbacks := s.callbacks - {t})
  }

  function AfterResult(status: Status): Position {
    match status
    case Success(n) => MustQuery(n)
    case Canceled => MustNotify
    case Failed => MustFail
  }

  ghost function Next(s: State, e: Event): State
    requires Enabled(s, e)
  {
    match e
    case Complete(t, status) => Moved(s.(outstanding := s.outstanding - 1), t, Started(status))
    case ReadResult(t) => Moved(s, t, AfterResult(s.callbacks[t].status))
    case RecordFailure(t) => Returned(s.(failed := true), t)
    case Notify(t) => Moved(s, t, MustLock(0))
    case QueryProperties(t, found) =>
      if found then Moved(s, t, Reading(s.callbacks[t].records, s.consumer)) else Returned(s, t)
    case Sample(t, goOn) =>
      var p := s.callbacks[t];
      if p.records > 0 && goOn then Moved(s, t, Reading(p.records - 1, p.at + 1)) else Moved(s, t, MustLock(p.at))
    case Finish(t, posting) =>
      if s.unsubscribed then Moved(s, t, Deleting)
      else if posting.RegisterFails? then Returned(s, t)
      else if posting.PostFails? then Returned(s.(failed := true), t)
      else Returned(s.(outstanding := s.outstanding + 1, consumer := s.callbacks[t].told), t)
    case Delete(t) => Returned(s.(frees := s.frees + 1), t)
    case Unsubscribe => s.(unsubscribed := true, user := if s.failed then UserDeleting else Done)
    case UserDelete => s.(user := Done, frees := s.frees + 1)
  }

  // ---- the obligation to free ----

  function One(b: bool): nat {
    if b then 1 else 0
  }

  /** Who has to free the subscription, or has freed it: the query that is out, a callback, an unsubscribe call that
      will find a failure, an unsubscribe call that has found one. */
  ghost function Obligations(s: State): nat {
    s.outstanding + |s.callbacks.Keys| + One(s.failed && s.user.Subscribed?) + One(s.user.UserDeleting?) + s.frees
  }

  ghost predicate Inv(s: State) {
    && Obligations(s) <= 1
    && (s.unsubscribed <==> !s.user.Subscribed?)
    && (s.user.UserDeleting? ==> s.failed)
    && (s.frees > 0 ==> s.unsubscribed)
    && (forall t :: t in s.callbacks && s.callbacks[t].Deleting? ==> s.unsubscribed)
  }

  /** The step after which nobody has to free the subscription: a callback returns because the map's properties or the
      wait cannot be had, or records a failure that no later unsubscribe call will see. */
  ghost predicate Drops(s: State, e: Event) {
    || (e.QueryProperties? && !e.found)
    || (e.Finish? && e.posting.RegisterFails? && !s.unsubscribed)
    || (e.RecordFailure? && s.unsubscribed)
  }

  /** The obligation to free is handed on by every step, except those that drop it. */
  lemma ObligationConserved(s: State, e: Event)
    requires Inv(s) && Enabled(s, e)
    ensures Obligations(Next(s, e)) == Obligations(s) - One(Drops(s, e))
  {
  }

  lemma StepKeeps(s: State, e: Event)
    requires Inv(s) && Enabled(s, e)
    ensures Inv(Next(s, e))
  {
    ObligationConserved(s, e);
    hide Obligations, Drops;
  }

  /** Whatever step comes next, the subscription it touches is not freed. */
  lemma StepIsSafe(s: State, e: Event)
    requires Inv(s) && Enabled(s, e)
    ensures s.Live()
  {
  }

  // ---- runs ----

  ghost predicate IsRun(s: State, run: seq<Event>)
    decreases |run|
  {
    run == [] || (Enabled(s, run[0]) && IsRun(Next(s, run[0]), run[1..]))
  }

  ghost function After(s: State, run: seq<Event>): State
    requires IsRun(s, run)
    decreases |run|
  {
    if run == [] then s else After(Next(s, run[0]), run[1..])
  }

  /** Some step of the run drops the obligation to free. */
  ghost predicate RunDrops(s: State, run: seq<Event>)
    requires IsRun(s, run)
    decreases |run|
  {
    run != [] && (Drops(s, run[0]) || RunDrops(Next(s, run[0]), run[1..]))
  }

  lemma {:induction false} RunKeeps(s: State, run: seq<Event>)
    requires Inv(s) && IsRun(s, run)
    ensures Inv(After(s, run))
    ensures Obligations(After(s, run)) == Obligations(s) - One(RunDrops(s, run))
    decreases |run|
  {
    hide Next, Enabled, Obligations, Drops;
    if run != [] {
      StepKeeps(s, run[0]);
      ObligationConserved(s, run[0]);
      RunKeeps(Next(s, run[0]), run[1..]);
      NothingDroppedTwice(s, run);
    }
  }

  lemma NothingDroppedTwice(s: State, run: seq<Event>)
    requires run != [] && Inv(s) && IsRun(s, run)
    requires Inv(After(Next(s, run[0]), run[1..]))
    requires Obligations(After(Next(s, run[0]), run[1..]))
             == Obligations(Next(s, run[0])) - One(RunDrops(Next(s, run[0]), run[1..]))
    ensures !(Drops(s, run[0]) && RunDrops(Next(s, run[0]), run[1..]))
  {
  }

  /** The subscription is live before every step of the run. */
  ghost predicate AllLive(s: State, run: seq<Event>)
    requires IsRun(s, run)
    decreases |run|
  {
    run == [] || (s.Live() && AllLive(Next(s, run[0]), run[1..]))
  }

  lemma {:induction false} RunIsSafe(s: State, run: seq<Event>)
    requires Inv(s) && IsRun(s, run)
    ensures AllLive(s, run)
    decreases |run|
  {
    hide Next, Enabled, Inv;
    if run != [] {
      StepIsSafe(s, run[0]);
      StepKeeps(s, run[0]);
      RunIsSafe(Next(s, run[0]), run[1..]);
    }
  }

  /** In every run from a successful subscribe call: no step touches the subscription after it is freed, it is freed at
      most once, and at most one query is out. */
  lemma Lifetime(run: seq<Event>)
    requires IsRun(INITIAL, run)
    ensures AllLive(INITIAL, run)
    ensures After(INITIAL, run).frees <= 1 && After(INITIAL, run).outstanding <= 1
  {
    assert INITIAL.callbacks.Keys == {};
    RunIsSafe(INITIAL, run);
    RunKeeps(INITIAL, run);
  }

  /** Once unsubscribed, no query is posted. */
  lemma {:induction false} NothingPostedAfterUnsubscribe(s: State, run: seq<Event>)
    requires s.unsubscribed && IsRun(s, run)
    ensures After(s, run).unsubscribed && After(s, run).outstanding <= s.outstanding
    decreases |run|
  {
    if run != [] {
      NothingPostedAfterUnsubscribe(Next(s, run[0]), run[1..]);
    }
  }

  /** No step is left. */
  ghost predicate Quiet(s: State) {
    forall e :: !Enabled(s, e)
  }

  lemma QuietMeans(s: State)
    requires Quiet(s)
    ensures s.user.Done? && s.outstanding == 0 && s.callbacks.Keys == {}
  {
    assert !Enabled(s, Unsubscribe) && !Enabled(s, UserDelete);
    forall t | t in s.callbacks ensures false {
      var e := match s.callbacks[t]
        case Started(_) => ReadResult(t)
        case MustFail => RecordFailure(t)
        case MustNotify => Notify(t)
        case MustQuery(_) => QueryProperties(t, true)
        case Reading(_, _) => Sample(t, true)
        case MustLock(_) => Finish(t, PostFails)
        case Deleting => Delete(t);
      assert Enabled(s, e);
    }
    assert !Enabled(s, Complete(0, Canceled));
  }

  /** When everything has come to rest, the subscription has been freed, exactly once, if and only if no step dropped
      the obligation to free it. */
  lemma FreedExactlyOnce(run: seq<Event>)
    requires IsRun(INITIAL, run) && Quiet(After(INITIAL, run))
    ensures After(INITIAL, run).frees == 1 <==> !RunDrops(INITIAL, run)
    ensures After(INITIAL, run).frees == 0 <==> RunDrops(INITIAL, run)
  {
    assert INITIAL.callbacks.Keys == {};
    RunKeeps(INITIAL, run);
    QuietMeans(After(INITIAL, run));
  }

  // ---- what the subscriber is given ----

  /** A record, with the answer whether to go on; or the final call, without a record. */
  datatype Delivery = Record(number: nat, accepted: bool) | FinalCall

  ghost function Gives(s: State, e: Event): seq<Delivery>
    requires Enabled(s, e)
  {
    match e
    case Sample(t, goOn) => if s.callbacks[t].records > 0 then [Record(s.callbacks[t].at, goOn)] else []
    case Notify(_) => [FinalCall]
    case _ => []
  }

  /** All that the subscriber is given in a run. */
  ghost function Given(s: State, run: seq<Event>): seq<Delivery>
    requires IsRun(s, run)
    decreases |run|
  {
    if run == [] then [] else Gives(s, run[0]) + Given(Next(s, run[0]), run[1..])
  }

  function Accepted(log: seq<Delivery>): nat {
    if log == [] then 0
    else
      var last := log[|log| - 1];
      Accepted(log[..|log| - 1]) + if last.Record? && last.accepted then 1 else 0
  }

  /** Each record is the first that the subscriber has not accepted yet: none is skipped, and none given again once it
      is accepted. */
  ghost predicate InTurn(log: seq<Delivery>) {
    forall i :: 0 <= i < |log| && log[i].Record? ==> log[i].number == Accepted(log[..i])
  }

  /** The last thing given was the final call. */
  predicate EndsWithFinal(log: seq<Delivery>) {
    log != [] && log[|log| - 1].FinalCall?
  }

  /** How the positions follow what has been accepted. After a cancelled query the callback starts from zero, and the
      kernel takes that only if nothing has been accepted. */
  ghost predicate Follows(s: State, log: seq<Delivery>) {
    FollowsAt(s, Accepted(log), EndsWithFinal(log))
  }

  ghost predicate FollowsAt(s: State, n: nat, final: bool) {
    && s.consumer <= n && (s.outstanding > 0 ==> s.consumer == n)
    && (final && n > 0 ==>
          s.outstanding == 0 && forall t :: t in s.callbacks ==> s.callbacks[t].MustLock? || s.callbacks[t].Deleting?)
    && forall t :: t in s.callbacks ==>
         match s.callbacks[t]
         case Reading(_, at) => at == n
         case MustLock(told) => if final then told == 0 && s.consumer == n else told == n
         case MustFail => true
         case Deleting => true
         case _ => s.consumer == n
  }

  lemma FollowsStep(s: State, e: Event, log: seq<Delivery>)
    requires Inv(s) && Enabled(s, e) && InTurn(log) && Follows(s, log)
    ensures InTurn(log + Gives(s, e)) && Follows(Next(s, e), log + Gives(s, e))
  {
    var gives := Gives(s, e);
    FollowsAtStep(s, e, Accepted(log), EndsWithFinal(log));
    hide Next, Inv, FollowsAt;
    if gives == [] {
      assert log + gives == log;
    } else {
      assert gives == [gives[0]];
      FollowsTurn(s, e, Accepted(log), EndsWithFinal(log));
      InTurnNext(log, gives[0]);
    }
  }

  lemma FollowsTurn(s: State, e: Event, n: nat, final: bool)
    requires Enabled(s, e) && FollowsAt(s, n, final)
    ensures Gives(s, e) != [] && Gives(s, e)[0].Record? ==> Gives(s, e)[0].number == n
  {
  }

  /** What a step does to the number of accepted records and to whether the final call was the last. */
  lemma FollowsAtStep(s: State, e: Event, n: nat, final: bool)
    requires Inv(s) && Enabled(s, e) && FollowsAt(s, n, final)
    ensures var g := Gives(s, e);
            FollowsAt(Next(s, e), if g != [] && g[0].Record? && g[0].accepted then n + 1 else n,
                      if g == [] then final else g[0].FinalCall?)
  {
    OnlyMoves(s, e);
    hide Inv;
  }

  lemma InTurnNext(log: seq<Delivery>, d: Delivery)
    requires InTurn(log) && (d.Record? ==> d.number == Accepted(log))
    ensures InTurn(log + [d])
    ensures Accepted(log + [d]) == Accepted(log) + if d.Record? && d.accepted then 1 else 0
  {
    var after := log + [d];
    assert after[..|log|] == log;
    assert forall i :: 0 <= i < |log| ==> after[..i] == log[..i];
  }

  /** There is no other callback beside the one that moves, and none beside a query that is out. */
  lemma OnlyMoves(s: State, e: Event)
    requires Inv(s) && Enabled(s, e)
    ensures s.outstanding > 0 ==> s.callbacks.Keys == {}
    ensures !e.Complete? && !e.Unsubscribe? && !e.UserDelete? ==> s.callbacks.Keys == {e.thread} && s.outstanding == 0
  {
    hide Next;
    if !e.Complete? && !e.Unsubscribe? && !e.UserDelete? {
      OnlyCallback(s.callbacks, e.thread);
    }
  }

  lemma {:induction false} InTurnFrom(s: State, run: seq<Event>, log: seq<Delivery>)
    requires Inv(s) && IsRun(s, run) && InTurn(log) && Follows(s, log)
    ensures InTurn(log + Given(s, run)) && Follows(After(s, run), log + Given(s, run))
    decreases |run|
  {
    hide Inv, Next, Enabled, InTurn, Follows, Accepted, Gives;
    if run == [] {
      assert log + Given(s, run) == log;
    } else {
      StepKeeps(s, run[0]);
      FollowsStep(s, run[0], log);
      InTurnFrom(Next(s, run[0]), run[1..], log + Gives(s, run[0]));
      assert log + Given(s, run) == log + Gives(s, run[0]) + Given(Next(s, run[0]), run[1..]);
    }
  }

  lemma FollowsRun(run: seq<Event>)
    requires IsRun(INITIAL, run)
    ensures InTurn(Given(INITIAL, run)) && Follows(After(INITIAL, run), Given(INITIAL, run))
  {
    assert INITIAL.callbacks.Keys == {};
    InTurnFrom(INITIAL, run, []);
    assert [] + Given(INITIAL, run) == Given(INITIAL, run);
  }

  /** In every run the subscriber is given the records in turn, without a gap. */
  lemma RecordsInTurn(run: seq<Event>)
    requires IsRun(INITIAL, run)
    ensures InTurn(Given(INITIAL, run))
  {
    FollowsRun(run);
  }

  lemma NextQueryAt(s: State, t: ThreadId, n: nat, final: bool)
    requires FollowsAt(s, n, final) && !s.unsubscribed && t in s.callbacks && s.callbacks[t].MustLock?
    ensures Enabled(s, Finish(t, Posted)) <==> n == 0 || !final
    ensures Enabled(s, Finish(t, Posted)) ==>
      Next(s, Finish(t, Posted)).outstanding > 0 && Next(s, Finish(t, Posted)).consumer == n
  {
  }

  /** As long as the subscriber stays, a callback that comes to post the next query asks the kernel for the first record
      that has not been accepted. The kernel takes the query, except after a cancellation that the subscriber did not
      ask for when a record had been accepted before. */
  lemma NextQueryExactly(run: seq<Event>, t: ThreadId)
    requires IsRun(INITIAL, run) && !After(INITIAL, run).unsubscribed
    requires t in After(INITIAL, run).callbacks && After(INITIAL, run).callbacks[t].MustLock?
    ensures var s, log := After(INITIAL, run), Given(INITIAL, run);
            && (Enabled(s, Finish(t, Posted)) <==> Accepted(log) == 0 || !EndsWithFinal(log))
            && (Enabled(s, Finish(t, Posted)) ==>
                  Next(s, Finish(t, Posted)).outstanding > 0 && Next(s, Finish(t, Posted)).consumer == Accepted(log))
  {
    FollowsRun(run);
    hide After, Given, Accepted, InTurn, IsRun, FollowsAt, Enabled, Next;
    NextQueryAt(After(INITIAL, run), t, Accepted(Given(INITIAL, run)), EndsWithFinal(Given(INITIAL, run)));
  }

  // ---- what one callback gives ----

  predicate IsBy(e: Event, t: ThreadId) {
    !e.Unsubscribe? && !e.UserDelete? && e.thread == t
  }

  ghost function GivenBy(s: State, run: seq<Event>, t: ThreadId): seq<Delivery>
    requires IsRun(s, run)
    decreases |run|
  {
    if run == [] then []
    else (if IsBy(run[0], t) then Gives(s, run[0]) else []) + GivenBy(Next(s, run[0]), run[1..], t)
  }

  predicate AllAccepted(g: seq<Delivery>) {
    forall i :: 0 <= i < |g| ==> g[i].Record? && g[i].accepted
  }

  /** Everything that a completion with this status is to give. */
  predicate Complied(status: Status, g: seq<Delivery>) {
    match status
    case Success(n) =>
      || (|g| == n && AllAccepted(g))
      || (0 < |g| <= n && AllAccepted(g[..|g| - 1]) && g[|g| - 1].Record? && !g[|g| - 1].accepted)
    case Canceled => g == [FinalCall]
    case Failed => false
  }

  /** What a callback has given, by its position. */
  predicate HasGiven(status: Status, p: Position, g: seq<Delivery>) {
    match p
    case Started(st) => st == status && g == []
    case MustFail => status.Failed? && g == []
    case MustNotify => status.Canceled? && g == []
    case MustQuery(n) => status == Success(n) && g == []
    case Reading(n, _) => status.Success? && AllAccepted(g) && |g| + n == status.records
    case MustLock(_) => Complied(status, g)
    case Deleting => Complied(status, g)
  }

  lemma HasGivenStep(s: State, e: Event, t: ThreadId, status: Status, g: seq<Delivery>)
    requires Enabled(s, e) && t in s.callbacks && HasGiven(status, s.callbacks[t], g)
    ensures var after := g + if IsBy(e, t) then Gives(s, e) else [];
            && (t in Next(s, e).callbacks ==> HasGiven(status, Next(s, e).callbacks[t], after))
            && (t !in Next(s, e).callbacks && status.Failed? ==> after == [])
  {
    if e.Sample? && e.thread == t && s.callbacks[t].records > 0 {
      var after := g + Gives(s, e);
      assert after[..|after| - 1] == g;
    } else if !(e.Notify? && e.thread == t) {
      assert g + [] == g;
    }
  }

  lemma {:induction false} GivenByNobody(s: State, run: seq<Event>, t: ThreadId)
    requires IsRun(s, run) && t !in s.callbacks && forall e :: e in run ==> !(e.Complete? && e.thread == t)
    ensures t !in After(s, run).callbacks && GivenBy(s, run, t) == []
    decreases |run|
  {
    if run != [] {
      assert run[0] in run;
      GivenByNobody(Next(s, run[0]), run[1..], t);
    }
  }

  lemma {:induction false} GivenFrom(s: State, run: seq<Event>, t: ThreadId, status: Status, g: seq<Delivery>)
    requires IsRun(s, run) && t in s.callbacks && HasGiven(status, s.callbacks[t], g)
    requires forall e :: e in run ==> !(e.Complete? && e.thread == t)
    ensures var r, all := After(s, run), g + GivenBy(s, run, t);
            && (t in r.callbacks ==> HasGiven(status, r.callbacks[t], all))
            && (t !in r.callbacks && status.Failed? ==> all == [])
    decreases |run|
  {
    hide Enabled, Next, Gives, HasGiven;
    if run == [] {
      assert g + GivenBy(s, run, t) == g;
    } else {
      assert run[0] in run;
      var gives := if IsBy(run[0], t) then Gives(s, run[0]) else [];
      HasGivenStep(s, run[0], t, status, g);
      if t in Next(s, run[0]).callbacks {
        GivenFrom(Next(s, run[0]), run[1..], t, status, g + gives);
        assert g + GivenBy(s, run, t) == g + gives + GivenBy(Next(s, run[0]), run[1..], t);
      } else {
        GivenByNobody(Next(s, run[0]), run[1..], t);
        assert g + GivenBy(s, run, t) == g + gives;
      }
    }
  }

  /** When the callback of a completion comes to take the lock, it has given all records to the subscriber in turn, or
      stopped at one because the subscriber said so; after a cancellation it has given the final call, once. The
      callback of a failed query gives nothing and does not take the lock to post or delete. */
  lemma CallbackGives(s: State, t: ThreadId, status: Status, run: seq<Event>)
    requires IsRun(s, [Complete(t, status)] + run) && forall e :: e in run ==> !(e.Complete? && e.thread == t)
    ensures var all := [Complete(t, status)] + run;
            var r, g := After(s, all), GivenBy(s, all, t);
            && (t in r.callbacks && (r.callbacks[t].MustLock? || r.callbacks[t].Deleting?) ==> Complied(status, g))
            && (status.Failed? ==> g == [])
  {
    var all := [Complete(t, status)] + run;
    assert all[0] == Complete(t, status) && all[1..] == run;
    GivenFrom(Next(s, all[0]), run, t, status, []);
    assert GivenBy(s, all, t) == GivenBy(Next(s, all[0]), run, t);
  }

  // ---- coming to rest ----

  /** How many steps a callback has left, while the subscriber has unsubscribed. */
  function StepsLeft(p: Position): nat {
    match p
    case Started(status) => 6 + Records(status)
    case MustFail => 1
    case MustNotify => 3
    case MustQuery(n) => 4 + n
    case Reading(n, _) => 3 + n
    case MustLock(_) => 2
    case Deleting => 1
  }

  function Records(status: Status): nat {
    if status.Success? then status.records else 0
  }

  ghost function CallbackWork(callbacks: map<ThreadId, Position>): nat {
    if callbacks.Keys == {} then 0 else var t :| t in callbacks.Keys; StepsLeft(callbacks[t])
  }

  /** The work left, apart from the records that a completion is yet to bring. */
  ghost function Work(s: State): nat {
    7 * s.outstanding + CallbackWork(s.callbacks) + One(s.user.UserDeleting?)
  }

  /** The records that the event brings. */
  function NewRecords(e: Event): nat {
    if e.Complete? then Records(e.status) else 0
  }

  lemma OnlyCallback(callbacks: map<ThreadId, Position>, t: ThreadId)
    requires |callbacks.Keys| <= 1 && t in callbacks
    ensures CallbackWork(callbacks) == StepsLeft(callbacks[t]) && callbacks - {t} == map[]
            && callbacks == map[t := callbacks[t]]
  {
    forall u | u in callbacks ensures u == t {
      assert {u, t} <= callbacks.Keys;
      if u != t {
        SubsetSize({u, t}, callbacks.Keys);
      }
    }
  }

  lemma SubsetSize(a: set<ThreadId>, b: set<ThreadId>)
    requires a <= b
    ensures |a| <= |b|
  {
    assert b == a + (b - a);
  }

  lemma OneCallback(t: ThreadId, p: Position)
    ensures CallbackWork(map[t := p]) == StepsLeft(p)
  {
    assert map[t := p].Keys == {t};
  }

  /** The steps of a callback, as changes of its position: a position, or the return. */
  lemma CallbackStep(s: State, e: Event)
    requires Inv(s) && s.unsubscribed && Enabled(s, e) && !e.Complete? && !e.Unsubscribe? && !e.UserDelete?
    ensures var t, r := e.thread, Next(s, e);
            && t in s.callbacks && r.outstanding == s.outstanding && r.user == s.user
            && (r.callbacks == s.callbacks - {t}
                || (t in r.callbacks && r.callbacks == s.callbacks[t := r.callbacks[t]]
                    && StepsLeft(r.callbacks[t]) < StepsLeft(s.callbacks[t])))
  {
  }

  /** After the unsubscribe call, every step takes from the work that is left. */
  lemma WorkDecreases(s: State, e: Event)
    requires Inv(s) && s.unsubscribed && Enabled(s, e)
    ensures Work(Next(s, e)) < Work(s) + NewRecords(e)
  {
    var r := Next(s, e);
    if e.UserDelete? {
      assert r.callbacks == s.callbacks;
    } else if e.Complete? {
      assert s.callbacks.Keys == {};
      assert r.callbacks == map[e.thread := Started(e.status)];
      OneCallback(e.thread, Started(e.status));
    } else {
      CallbackStep(s, e);
      hide Next, Enabled;
      var t := e.thread;
      OnlyCallback(s.callbacks, t);
      if t in r.callbacks {
        assert r.callbacks == map[t := r.callbacks[t]];
        OneCallback(t, r.callbacks[t]);
      } else {
        assert r.callbacks.Keys == {};
      }
    }
  }

  function AllRecords(run: seq<Event>): nat {
    if run == [] then 0 else NewRecords(run[0]) + AllRecords(run[1..])
  }

  /** After the unsubscribe call every run ends: it has no more steps than the work left and the records it brings. */
  lemma {:induction false} RunsEnd(s: State, run: seq<Event>)
    requires Inv(s) && s.unsubscribed && IsRun(s, run)
    ensures |run| <= Work(s) + AllRecords(run)
    decreases |run|
  {
    if run != [] {
      StaysUnsubscribed(s, run[0]);
      hide Inv, Next, Enabled, Work;
      StepKeeps(s, run[0]);
      WorkDecreases(s, run[0]);
      RunsEnd(Next(s, run[0]), run[1..]);
    }
  }

  lemma StaysUnsubscribed(s: State, e: Event)
    requires s.unsubscribed && Enabled(s, e)
    ensures Next(s, e).unsubscribed
  {
  }

  /** A step that is enabled and brings no new records, unless everything is at rest. */
  lemma NotYetQuiet(s: State) returns (e: Event)
    requires Inv(s) && !Quiet(s)
    ensures Enabled(s, e) && NewRecords(e) == 0
  {
    var any :| Enabled(s, any);
    e := if any.Complete? then Complete(any.thread, Canceled) else any;
  }

  /** And it can be continued to rest from every state. */
  lemma {:induction false} ComesToRest(s: State) returns (run: seq<Event>)
    requires Inv(s) && s.unsubscribed
    ensures IsRun(s, run) && Quiet(After(s, run))
    decreases Work(s)
  {
    run := [];
    if !Quiet(s) {
      var e := NotYetQuiet(s);
      StaysUnsubscribed(s, e);
      hide Inv, Next, Enabled, Work, Quiet;
      StepKeeps(s, e);
      WorkDecreases(s, e);
      var rest := ComesToRest(Next(s, e));
      run := [e] + rest;
      assert run[0] == e && run[1..] == rest;
    }
  }

  // ---- nothing fails except by cancellation ----

  predicate Fails(e: Event) {
    || (e.Complete? && e.status.Failed?)
    || (e.QueryProperties? && !e.found)
    || (e.Finish? && !e.posting.Posted?)
  }

  ghost predicate NoFailurePending(s: State) {
    forall t :: t in s.callbacks ==> s.callbacks[t] != MustFail && s.callbacks[t] != Started(Failed)
  }

  lemma {:induction false} NothingDropped(s: State, run: seq<Event>)
    requires NoFailurePending(s) && IsRun(s, run) && forall e :: e in run ==> !Fails(e)
    ensures !RunDrops(s, run)
    decreases |run|
  {
    if run != [] {
      assert run[0] in run;
      NoFailureStep(s, run[0]);
      hide Next, Enabled;
      NothingDropped(Next(s, run[0]), run[1..]);
    }
  }

  lemma NoFailureStep(s: State, e: Event)
    requires NoFailurePending(s) && Enabled(s, e) && !Fails(e)
    ensures NoFailurePending(Next(s, e)) && !Drops(s, e)
  {
  }

  /** If nothing fails except by cancellation, then at rest the subscription has been freed exactly once. */
  lemma FreedOnceUnlessFailure(run: seq<Event>)
    requires IsRun(INITIAL, run) && Quiet(After(INITIAL, run)) && forall e :: e in run ==> !Fails(e)
    ensures After(INITIAL, run).frees == 1
  {
    NothingDropped(INITIAL, run);
    FreedExactlyOnce(run);
  }

  lemma RunStep(s: State, e: Event, rest: seq<Event>, r: State)
    requires Enabled(s, e) && Next(s, e) == r && IsRun(r, rest)
    ensures var run := [e] + rest;
            && IsRun(s, run) && After(s, run) == After(r, rest)
            && (RunDrops(s, run) <==> Drops(s, e) || RunDrops(r, rest))
  {
    hide Enabled, Next, Drops;
    assert ([e] + rest)[0] == e && ([e] + rest)[1..] == rest;
  }

  const AT_REST := State(Done, true, true, 0, map[], 0, 0)

  lemma AtRest()
    ensures Quiet(AT_REST)
  {
  }

  /** The shortest run that drops the obligation: the query fails by itself while the subscriber unsubscribes. */
  lemma FailureMeetsUnsubscribe()
    ensures var run := [Unsubscribe] + ([Complete(0, Failed)] + ([ReadResult(0)] + [RecordFailure(0)]));
            && IsRun(INITIAL, run) && RunDrops(INITIAL, run)
            && After(INITIAL, run).frees == 0 && Quiet(After(INITIAL, run))
  {
    var s1 := State(Done, true, false, 1, map[], 0, 0);
    var s2 := State(Done, true, false, 0, map[0 := Started(Failed)], 0, 0);
    var s3 := State(Done, true, false, 0, map[0 := MustFail], 0, 0);
    AtRest();
    RunStep(s3, RecordFailure(0), [], AT_REST);
    assert [RecordFailure(0)] + [] == [RecordFailure(0)];
    RunStep(s2, ReadResult(0), [RecordFailure(0)], s3);
    RunStep(s1, Complete(0, Failed), [ReadResult(0)] + [RecordFailure(0)], s2);
    RunStep(INITIAL, Unsubscribe, [Complete(0, Failed)] + ([ReadResult(0)] + [RecordFailure(0)]), s1);
  }
}

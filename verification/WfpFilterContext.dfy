/** The reference-counted filter context: creation, adding its WFP filters, the filter-delete notification
    and the cleanup at detach. */
module WfpFilterContext {

  datatype FilterState = NotAdded | Added | Deleted
  datatype Filter = Filter(id: nat, state: FilterState)

  /** Whether the array for the filters can be allocated, and what WFP answers while they are added in a transaction. */
  datatype Answers = Answers(allocates: bool, begins: bool, ids: seq<nat>, commits: bool)

  /** How many filters WFP has not yet reported as deleted. */
  function LiveFilters(filters: seq<Filter>): nat {
    if filters == [] then 0 else (if filters[0].state.Added? then 1 else 0) + LiveFilters(filters[1..])
  }

  ghost predicate DistinctIds(filters: seq<Filter>) {
    forall i, j :: 0 <= i < j < |filters| ==> filters[i].id != filters[j].id
  }

  lemma {:induction false} DeletedOne(filters: seq<Filter>, k: nat)
    requires k < |filters| && filters[k].state.Added?
    ensures LiveFilters(filters[k := filters[k].(state := Deleted)]) == LiveFilters(filters) - 1
  {
    var after := filters[k := filters[k].(state := Deleted)];
    if k == 0 {
      assert after[1..] == filters[1..];
    } else {
      assert after[1..] == filters[1..][k - 1 := filters[k].(state := Deleted)];
      DeletedOne(filters[1..], k - 1);
    }
  }

  lemma {:induction false} AllLive(filters: seq<Filter>)
    requires forall i :: 0 <= i < |filters| ==> filters[i].state.Added?
    ensures LiveFilters(filters) == |filters|
  {
    if filters != [] {
      AllLive(filters[1..]);
    }
  }

  lemma {:induction false} NoneLive(filters: seq<Filter>)
    ensures LiveFilters(filters) == 0 <==> forall i :: 0 <= i < |filters| ==> !filters[i].state.Added?
  {
    if filters != [] {
      NoneLive(filters[1..]);
      assert forall i :: 1 <= i < |filters| ==> filters[i] == filters[1..][i - 1];
    }
  }

  class FilterContext {
    var references: int
    var filters: array?<Filter>
    var detached: bool
    /** Flow contexts that point to this filter context. */
    var flows: nat
    /** The memory is allocated, and it keeps one rundown reference on the client. */
    var live: bool
    var holdsClient: bool

    ghost function Filters(): seq<Filter>
      reads this, filters
    {
      if filters == null then [] else filters[..]
    }

    /** The counter counts the initial reference, the live filters and the flows; the context lives and holds
        its client exactly while somebody refers to it. */
    ghost predicate Valid()
      reads this, filters
    {
      && references == (if detached then 0 else 1) + LiveFilters(Filters()) + flows
      && (live <==> references > 0)
      && (holdsClient <==> live)
      && DistinctIds(Filters())
    }

    constructor ()
      ensures Valid() && live && !detached && references == 1 && Filters() == [] && flows == 0
    {
      references, filters, detached, flows := 1, null, false, 0;
      live, holdsClient := true, true;
    }

    /** Adds one filter per answer; every filter takes a reference before it is added. A failure leaves no filter
        behind, because the transaction is aborted, and the caller frees the context without counting down. */
    method AddFilters(count: nat, answers: Answers) returns (added: bool)
      requires Valid() && live && !detached && filters == null && flows == 0
      requires |answers.ids| <= count
      requires forall i, j :: 0 <= i < j < |answers.ids| ==> answers.ids[i] != answers.ids[j]
      modifies this
      ensures added <==> count > 0 && answers.allocates && answers.begins && |answers.ids| == count && answers.commits
      ensures detached == old(detached) && flows == old(flows) && live == old(live) && holdsClient == old(holdsClient)
      ensures added ==>
        && Valid() && fresh(filters) && references == 1 + count
        && |Filters()| == count
        && forall i :: 0 <= i < count ==> Filters()[i] == Filter(answers.ids[i], Added)
      ensures !added ==> filters == null && 1 <= references <= 1 + count
      ensures !answers.allocates || !answers.begins ==> references == 1
    {
      if count == 0 || !answers.allocates || !answers.begins {
        return false;
      }
      var ids := new Filter[count](_ => Filter(0, NotAdded));
      var index := 0;
      while index < count
        invariant index <= count && index <= |answers.ids|
        invariant references == 1 + index && filters == null && fresh(ids)
        invariant detached == old(detached) && flows == old(flows) && live == old(live)
        invariant holdsClient == old(holdsClient)
        invariant forall i :: 0 <= i < index ==> ids[i] == Filter(answers.ids[i], Added)
      {
        references := references + 1;
        if index == |answers.ids| {
          return false;
        }
        ids[index] := Filter(answers.ids[index], Added);
        index := index + 1;
      }
      if !answers.commits {
        return false;
      }
      filters := ids;
      AllLive(ids[..]);
      return true;
    }

    method Reference()
      requires Valid() && live
      modifies this`references, this`flows
      ensures Valid() && references == old(references) + 1 && flows == old(flows) + 1
    {
      references := references + 1;
      flows := flows + 1;
    }

    /** The last dereference, and no other, releases the client and frees the context. */
    method Dereference()
      requires references > 0 && live && holdsClient
      modifies this`references, this`live, this`holdsClient
      ensures references == old(references) - 1
      ensures live == (references > 0) && holdsClient == live
    {
      references := references - 1;
      if references == 0 {
        holdsClient := false;
        live := false;
      }
    }

    method FreeFlow()
      requires Valid() && flows > 0
      modifies this`references, this`flows, this`live, this`holdsClient
      ensures Valid() && flows == old(flows) - 1 && references == old(references) - 1
    {
      flows := flows - 1;
      Dereference();
    }

    /** WFP reports that the filter with this id is deleted. */
    method NotifyDeleted(id: nat)
      requires Valid() && filters != null
      requires exists k :: 0 <= k < filters.Length && filters[k] == Filter(id, Added)
      modifies this`references, this`live, this`holdsClient, filters
      ensures Valid() && references == old(references) - 1
      ensures |Filters()| == |old(Filters())|
      ensures forall i :: 0 <= i < |Filters()| ==>
        Filters()[i] == if old(Filters())[i].id == id then Filter(id, Deleted) else old(Filters())[i]
    {
      ghost var before := filters[..];
      ghost var k :| 0 <= k < filters.Length && filters[k] == Filter(id, Added);
      var index := 0;
      while index < filters.Length
        invariant index <= k && filters[..] == before
      {
        if filters[index].id == id {
          filters[index] := filters[index].(state := Deleted);
          break;
        }
        index := index + 1;
      }
      assert filters[..] == before[k := before[k].(state := Deleted)];
      DeletedOne(before, k);
      Dereference();
    }

    /** Detach: no further invocation, and the initial reference is dropped. */
    method Cleanup()
      requires Valid() && !detached
      modifies this`references, this`detached, this`live, this`holdsClient
      ensures Valid() && detached && references == old(references) - 1
    {
      detached := true;
      Dereference();
    }

    /** The context is freed, and its client released, exactly after the cleanup, the deletion of every filter
        and the deletion of every flow, in whatever order these came. */
    lemma FreedExactly()
      requires Valid()
      ensures !live <==> detached && flows == 0 && forall i :: 0 <= i < |Filters()| ==> !Filters()[i].state.Added?
    {
      NoneLive(Filters());
    }
  }
}

/** Runs in which the deletion of a flow overtakes an access to it: one for each way in which that can happen. */
module FlowListRuns {
  import opened Wrappers
  import opened HookLifetime
  import opened FlowLists
  import opened FlowListSafety
  import opened HookLifetimeSteps

  /** The run is possible and leads from s to r. */
  ghost predicate Leads(s: ListState, run: seq<ListEvent>, r: ListState) {
    CoreSafe(s, run) && StateAfter(s, run) == r
  }

  ghost predicate Goes(s: ListState, e: ListEvent, r: ListState) {
    ListEnabled(s, e) && (e.Step? ==> Safe(s.core, e.event)) && ListNext(s, e) == r
  }

  /** A run, by the states that it goes through. */
  lemma {:induction false} PathLeads(states: seq<ListState>, run: seq<ListEvent>)
    requires |states| == |run| + 1 && forall i :: 0 <= i < |run| ==> Goes(states[i], run[i], states[i + 1])
    ensures Leads(states[0], run, states[|run|])
    decreases |run|
  {
    hide ListEnabled, Safe, ListNext;
    if run != [] {
      assert Goes(states[0], run[0], states[1]);
      forall i | 0 <= i < |run[1..]| ensures Goes(states[1..][i], run[1..][i], states[1..][i + 1]) {
        assert Goes(states[i + 1], run[i + 1], states[i + 2]);
      }
      PathLeads(states[1..], run[1..]);
    }
  }

  lemma {:induction false} LeadsOn(s: ListState, a: seq<ListEvent>, m: ListState, b: seq<ListEvent>, r: ListState)
    requires Leads(s, a, m) && Leads(m, b, r)
    ensures Leads(s, a + b, r)
    decreases |a|
  {
    hide ListEnabled, Safe, ListNext;
    if a == [] {
      assert a + b == b;
    } else {
      LeadsOn(ListNext(s, a[0]), a[1..], m, b, r);
      assert (a + b)[0] == a[0] && (a + b)[1..] == a[1..] + b;
    }
  }

  /** Client 0 with context 0 and filter 5. */
  function With(phase: Phase, references: nat, rundown: nat, threads: map<ThreadId, Thread>, flows: map<FlowId,
                Flow>): State {
    State(map[0 := Client(phase, 0, rundown)], map[0 := FilterContext(0, references, Late(phase))], map[], map[5 := 0],
          flows, threads)
  }

  function Cl(at: Position): Thread {
    Classify(5, 0, 0, at)
  }

  function Del(at: Position): Thread {
    FlowDelete(7, 0, 0, at)
  }

  /** The one flow. */
  function Only(owner: Owner): map<FlowId, Flow> {
    map[7 := Flow(0, owner)]
  }

  /** Nothing unpublished, nothing unlinked, no drain. */
  function Plain(core: State, born: nat, list: seq<FlowId>): ListState {
    ListState(core, born, map[], {}, map[0 := list], map[])
  }

  // ---- a classify call associates flow 7 ----

  const ATTACHED := Plain(With(Attached, 2, 1, map[], map[]), 0, [])
  const ARRIVED := Plain(With(Attached, 2, 1, map[0 := Cl(Arrived)], map[]), 0, [])
  const CHECKED := Plain(With(Attached, 2, 1, map[0 := Cl(Checked)], map[]), 0, [])
  const ENTERED := Plain(With(Attached, 2, 2, map[0 := Cl(Entered)], map[]), 0, [])
  const MADE := Plain(With(Attached, 3, 2, map[0 := Cl(WithFlow(7))], Only(MadeBy(0))), 8, [])
  const ASSOCIATED :=
    Plain(With(Attached, 3, 2, map[0 := Cl(Leaving)], Only(Associated)), 8, []).(unpublished := map[0 := 7])

  lemma Attaches()
    ensures Goes(START, Step(Attach(0, 0, {5})), ATTACHED)
  {
    assert Next(INITIAL, Attach(0, 0, {5})) == ATTACHED.core;
  }

  lemma Arrives()
    ensures Goes(ATTACHED, Step(ArriveClassify(0, 5)), ARRIVED)
  {
  }

  lemma Checks()
    ensures Goes(ARRIVED, Step(Check(0)), CHECKED)
  {
  }

  lemma Enters()
    ensures Goes(CHECKED, Step(Enter(0)), ENTERED)
  {
  }

  lemma Makes()
    ensures Goes(ENTERED, Step(MakeFlow(0, 7)), MADE)
  {
  }

  lemma Associates()
    ensures Goes(MADE, Step(AssociateFlow(0)), ASSOCIATED)
  {
  }

  // ---- a flow-delete call comes before the publication ----

  const DELETE_ARRIVED :=
    ASSOCIATED.(core := With(Attached, 3, 2, map[0 := Cl(Leaving), 9 := Del(Arrived)], Only(DeletedBy(9))))
  const DELETE_CHECKED :=
    ASSOCIATED.(core := With(Attached, 3, 2, map[0 := Cl(Leaving), 9 := Del(Checked)], Only(DeletedBy(9))))
  const OVERTAKEN :=
    ASSOCIATED.(core := With(Attached, 3, 3, map[0 := Cl(Leaving), 9 := Del(Entered)], Only(DeletedBy(9))))

  lemma DeleteArrives()
    ensures Goes(ASSOCIATED, Step(ArriveFlowDelete(9, 7)), DELETE_ARRIVED)
  {
  }

  lemma DeleteChecks()
    ensures Goes(DELETE_ARRIVED, Step(Check(9)), DELETE_CHECKED)
  {
  }

  lemma DeleteEnters()
    ensures Goes(DELETE_CHECKED, Step(Enter(9)), OVERTAKEN)
  {
  }

  const TO_OVERTAKEN := [Step(Attach(0, 0, {5})), Step(ArriveClassify(0, 5)), Step(Check(0)), Step(Enter(0)),
                         Step(MakeFlow(0, 7)), Step(AssociateFlow(0)),
                         Step(ArriveFlowDelete(9, 7)), Step(Check(9)), Step(Enter(9))]

  lemma ToOvertaken()
    ensures Leads(START, TO_OVERTAKEN, OVERTAKEN)
  {
    hide Leads, Goes, With, Plain;
    Attaches();
    Arrives();
    Checks();
    Enters();
    Makes();
    Associates();
    DeleteArrives();
    DeleteChecks();
    DeleteEnters();
    PathLeads([START, ATTACHED, ARRIVED, CHECKED, ENTERED, MADE, ASSOCIATED, DELETE_ARRIVED, DELETE_CHECKED, OVERTAKEN],
              TO_OVERTAKEN);
  }

  lemma NotYetLinked()
    ensures ListEnabled(OVERTAKEN, Unlink(9)) && !OwnFlowLive(OVERTAKEN, Unlink(9))
  {
    assert OVERTAKEN.unpublished[0] in OVERTAKEN.unpublished.Values;
  }

  /** WFP deletes a flow right after its association. The flow-delete call takes it off a list that it is not on: its
      links are still zero. */
  lemma DeleteOvertakesPublication()
    ensures Leads(START, TO_OVERTAKEN, OVERTAKEN)
    ensures ListEnabled(OVERTAKEN, Unlink(9)) && !OwnFlowLive(OVERTAKEN, Unlink(9))
  {
    hide Leads, ListEnabled, OwnFlowLive, With, Plain;
    NotYetLinked();
    ToOvertaken();
  }

  // ---- a drain of the list with flow 7, and a flow-delete call of that flow ----

  const LISTED := Plain(With(Attached, 3, 2, map[0 := Cl(Leaving)], Only(Associated)), 8, [7])
  const PUBLISHED := Plain(With(Attached, 3, 1, map[], Only(Associated)), 8, [7])
  const DETACHING := Plain(With(DetachStarted, 3, 1, map[], Only(Associated)), 8, [7])

  /** The list has been taken. */
  function Drains(d: Drain, core: State): ListState {
    Plain(core, 8, []).(drains := map[0 := d])
  }

  const LOADED := With(DetachStarted, 3, 1, map[], Only(Associated))
  const DELETE_CALLED := With(DetachStarted, 3, 1, map[9 := Del(Arrived)], Only(DeletedBy(9)))
  const DELETE_PASSED := With(DetachStarted, 3, 1, map[9 := Del(Checked)], Only(DeletedBy(9)))
  const DELETE_INSIDE := With(DetachStarted, 3, 2, map[9 := Del(Entered)], Only(DeletedBy(9)))
  const DELETE_DONE := With(DetachStarted, 2, 2, map[9 := Del(Leaving)], map[])

  const IDLE := Draining([7], Idle)
  const TESTED := Draining([7], Tested)
  const READ := Draining([7], Read(7, None))
  const HOLDING := Draining([], Holding(7))
  const EMPTIED := Draining([], Tested)

  lemma Publishes()
    ensures Goes(ASSOCIATED, Publish(0), LISTED)
  {
    assert ASSOCIATED.unpublished - {0} == map[] && [] + [7] == [7];
  }

  lemma Leaves()
    ensures Goes(LISTED, Step(Leave(0)), PUBLISHED)
  {
  }

  lemma StartsDetach()
    ensures Goes(PUBLISHED, Step(StartDetach(0)), DETACHING)
  {
  }

  lemma Takes()
    ensures Goes(DETACHING, TakeList(0), Drains(IDLE, LOADED))
  {
  }

  lemma Tests()
    ensures Goes(Drains(IDLE, LOADED), TestList(0), Drains(TESTED, LOADED))
  {
  }

  lemma Reads()
    ensures Goes(Drains(TESTED, LOADED), ReadHead(0), Drains(READ, LOADED))
  {
  }

  lemma Relinks()
    ensures Goes(Drains(READ, LOADED), Relink(0), Drains(HOLDING, LOADED))
  {
    assert [7][1..] == [];
  }

  lemma DeleteCalled(d: Drain)
    ensures Goes(Drains(d, LOADED), Step(ArriveFlowDelete(9, 7)), Drains(d, DELETE_CALLED))
  {
  }

  lemma DeletePasses(d: Drain)
    ensures Goes(Drains(d, DELETE_CALLED), Step(Check(9)), Drains(d, DELETE_PASSED))
  {
  }

  lemma DeleteGoesInside(d: Drain)
    ensures Goes(Drains(d, DELETE_PASSED), Step(Enter(9)), Drains(d, DELETE_INSIDE))
  {
  }

  lemma Unlinks(d: Drain)
    ensures Goes(Drains(d, DELETE_INSIDE), Unlink(9), Drains(WithoutInDrain(d, 7), DELETE_INSIDE).(unlinked := {9}))
  {
    assert AfterUnlink(Drains(d, DELETE_INSIDE), 9) == Drains(WithoutInDrain(d, 7), DELETE_INSIDE).(unlinked := {9});
  }

  lemma DeletesInside(d: Drain)
    ensures Goes(Drains(d, DELETE_INSIDE).(unlinked := {9}), Step(DeleteFlow(9)), Drains(d, DELETE_DONE))
  {
    assert {9} - {9} == {};
  }

  const TO_PUBLISHED := [Step(Attach(0, 0, {5})), Step(ArriveClassify(0, 5)), Step(Check(0)), Step(Enter(0)),
                         Step(MakeFlow(0, 7)), Step(AssociateFlow(0)), Publish(0), Step(Leave(0))]
  const DELETE := [Step(ArriveFlowDelete(9, 7)), Step(Check(9)), Step(Enter(9)), Unlink(9), Step(DeleteFlow(9))]

  lemma ToPublished()
    ensures Leads(START, TO_PUBLISHED, PUBLISHED)
  {
    hide Leads, Goes, With, Plain;
    Attaches();
    Arrives();
    Checks();
    Enters();
    Makes();
    Associates();
    Publishes();
    Leaves();
    PathLeads([START, ATTACHED, ARRIVED, CHECKED, ENTERED, MADE, ASSOCIATED, LISTED, PUBLISHED], TO_PUBLISHED);
  }

  /** A whole flow-delete call of flow 7, in the middle of a drain. */
  lemma Deletes(d: Drain, after: Drain)
    requires after == WithoutInDrain(d, 7)
    ensures Leads(Drains(d, LOADED), DELETE, Drains(after, DELETE_DONE))
  {
    hide Leads, Goes, With, Drains, WithoutInDrain;
    DeleteCalled(d);
    DeletePasses(d);
    DeleteGoesInside(d);
    Unlinks(d);
    DeletesInside(after);
    PathLeads([Drains(d, LOADED), Drains(d, DELETE_CALLED), Drains(d, DELETE_PASSED), Drains(d, DELETE_INSIDE),
               Drains(after, DELETE_INSIDE).(unlinked := {9}), Drains(after, DELETE_DONE)], DELETE);
  }

  // ---- the call comes between the drain's test of its list and its read ----

  const TO_TESTED := [Step(StartDetach(0)), TakeList(0), TestList(0)]

  lemma ToTested()
    ensures Leads(PUBLISHED, TO_TESTED, Drains(TESTED, LOADED))
  {
    hide Leads, Goes, With, Plain;
    StartsDetach();
    Takes();
    Tests();
    PathLeads([PUBLISHED, DETACHING, Drains(IDLE, LOADED), Drains(TESTED, LOADED)], TO_TESTED);
  }

  lemma ReadsNothing()
    ensures var s := Drains(EMPTIED, DELETE_DONE); ListEnabled(s, ReadHead(0)) && !OwnFlowLive(s, ReadHead(0))
  {
  }

  /** WFP deletes the last flow of a list that the drain has just found not empty: the drain takes the list head for a
      flow context. */
  lemma DeleteOvertakesTest()
    ensures var s := Drains(EMPTIED, DELETE_DONE);
            && Leads(START, TO_PUBLISHED + (TO_TESTED + DELETE), s)
            && ListEnabled(s, ReadHead(0)) && !OwnFlowLive(s, ReadHead(0))
  {
    hide Leads, ListEnabled, OwnFlowLive, With, Plain, Drains;
    ReadsNothing();
    ToPublished();
    ToTested();
    Deletes(TESTED, EMPTIED);
    LeadsOn(PUBLISHED, TO_TESTED, Drains(TESTED, LOADED), DELETE, Drains(EMPTIED, DELETE_DONE));
    LeadsOn(START, TO_PUBLISHED, PUBLISHED, TO_TESTED + DELETE, Drains(EMPTIED, DELETE_DONE));
  }

  // ---- the call comes between the drain's taking a flow off its list and its removal call ----

  const TO_HOLDING := [Step(StartDetach(0)), TakeList(0), TestList(0), ReadHead(0), Relink(0)]

  lemma ToHolding()
    ensures Leads(PUBLISHED, TO_HOLDING, Drains(HOLDING, LOADED))
  {
    hide Leads, Goes, With, Plain;
    StartsDetach();
    Takes();
    Tests();
    Reads();
    Relinks();
    PathLeads([PUBLISHED, DETACHING, Drains(IDLE, LOADED), Drains(TESTED, LOADED), Drains(READ, LOADED),
               Drains(HOLDING, LOADED)], TO_HOLDING);
  }

  lemma RemovesFreed()
    ensures var s := Drains(HOLDING, DELETE_DONE); ListEnabled(s, RemoveFlow(0)) && !OwnFlowLive(s, RemoveFlow(0))
  {
  }

  /** WFP deletes a flow that the drain has taken off its list and not yet removed: the drain reads freed memory. */
  lemma DeleteOvertakesDrain()
    ensures var s := Drains(HOLDING, DELETE_DONE);
            && Leads(START, TO_PUBLISHED + (TO_HOLDING + DELETE), s)
            && ListEnabled(s, RemoveFlow(0)) && !OwnFlowLive(s, RemoveFlow(0))
  {
    hide Leads, ListEnabled, OwnFlowLive, With, Plain, Drains;
    RemovesFreed();
    ToPublished();
    ToHolding();
    Deletes(HOLDING, HOLDING);
    LeadsOn(PUBLISHED, TO_HOLDING, Drains(HOLDING, LOADED), DELETE, Drains(HOLDING, DELETE_DONE));
    LeadsOn(START, TO_PUBLISHED, PUBLISHED, TO_HOLDING + DELETE, Drains(HOLDING, DELETE_DONE));
  }

  // ---- a flow that was freed without unlinking it is still on the list ----

  const SECOND_ARRIVED := Plain(With(Attached, 2, 2, map[0 := Cl(Entered), 1 := Cl(Arrived)], map[]), 0, [])
  const SECOND_CHECKED := Plain(With(Attached, 2, 2, map[0 := Cl(Entered), 1 := Cl(Checked)], map[]), 0, [])
  const SECOND_ENTERED := Plain(With(Attached, 2, 3, map[0 := Cl(Entered), 1 := Cl(Entered)], map[]), 0, [])
  const FLAG_STARTED := Plain(With(DetachStarted, 2, 3, map[0 := Cl(Entered), 1 := Cl(Entered)], map[]), 0, [])
  const FLAG_TAKEN := FLAG_STARTED.(drains := map[0 := Draining([], Idle)])
  const FLAG_DRAINED := FLAG_STARTED.(drains := map[0 := Drained])

  /** After the flag, with both classify calls inside. */
  function Late7(references: nat, at: Position, flows: map<FlowId, Flow>, list: seq<FlowId>): ListState {
    Plain(With(Flagged, references, 3, map[0 := Cl(at), 1 := Cl(Entered)], flows), 8, list).(drains := map[0 := Drained])
  }

  const FLAGGED := Late7(2, Entered, map[], []).(born := 0)
  const LATE_MADE := Late7(3, WithFlow(7), Only(MadeBy(0)), [])
  const LATE_ASSOCIATED := Late7(3, Leaving, Only(Associated), []).(unpublished := map[0 := 7])
  const LATE_LISTED := Late7(3, Leaving, Only(Associated), [7])

  function WithDelete(at: Position): ListState {
    LATE_LISTED.(core := With(Flagged, 3, 3, map[0 := Cl(Leaving), 1 := Cl(Entered), 9 := Del(at)], Only(DeletedBy(9))))
  }

  const FREED := Late7(2, Leaving, map[], [7])

  function SecondFlow(at: Position, owner: Owner): ListState {
    FREED.(core := With(Flagged, 3, 3, map[0 := Cl(Leaving), 1 := Cl(at)], map[8 := Flow(0, owner)]), born := 9)
  }

  const SECOND_MADE := SecondFlow(WithFlow(8), MadeBy(1))
  const SECOND_ASSOCIATED := SecondFlow(Leaving, Associated).(unpublished := map[1 := 8])

  lemma SecondArrives()
    ensures Goes(ENTERED, Step(ArriveClassify(1, 5)), SECOND_ARRIVED)
  {
  }

  lemma SecondChecks()
    ensures Goes(SECOND_ARRIVED, Step(Check(1)), SECOND_CHECKED)
  {
  }

  lemma SecondEnters()
    ensures Goes(SECOND_CHECKED, Step(Enter(1)), SECOND_ENTERED)
  {
  }

  lemma StartsFlag()
    ensures Goes(SECOND_ENTERED, Step(StartDetach(0)), FLAG_STARTED)
  {
  }

  lemma TakesNothing()
    ensures Goes(FLAG_STARTED, TakeList(0), FLAG_TAKEN)
  {
  }

  lemma FinishesDrain()
    ensures Goes(FLAG_TAKEN, FinishDrain(0), FLAG_DRAINED)
  {
  }

  lemma Flags()
    ensures Goes(FLAG_DRAINED, Step(SetDetached(0)), FLAGGED)
  {
  }

  lemma MakesLate()
    ensures Goes(FLAGGED, Step(MakeFlow(0, 7)), LATE_MADE)
  {
  }

  lemma AssociatesLate()
    ensures Goes(LATE_MADE, Step(AssociateFlow(0)), LATE_ASSOCIATED)
  {
  }

  lemma PublishesLate()
    ensures Goes(LATE_ASSOCIATED, Publish(0), LATE_LISTED)
  {
    assert LATE_ASSOCIATED.unpublished - {0} == map[] && [] + [7] == [7];
  }

  lemma ArrivesLate()
    ensures Goes(LATE_LISTED, Step(ArriveFlowDelete(9, 7)), WithDelete(Arrived))
  {
  }

  lemma Skips()
    ensures Goes(WithDelete(Arrived), Step(Check(9)), WithDelete(Skipped))
  {
  }

  lemma Frees()
    ensures Goes(WithDelete(Skipped), Step(DeleteFlow(9)), FREED)
  {
  }

  lemma SecondMakes()
    ensures Goes(FREED, Step(MakeFlow(1, 8)), SECOND_MADE)
  {
  }

  lemma SecondAssociates()
    ensures Goes(SECOND_MADE, Step(AssociateFlow(1)), SECOND_ASSOCIATED)
  {
  }

  const TO_ENTERED := [Step(Attach(0, 0, {5})), Step(ArriveClassify(0, 5)), Step(Check(0)), Step(Enter(0)),
                       Step(ArriveClassify(1, 5)), Step(Check(1)), Step(Enter(1))]
  const TO_LISTED := [Step(StartDetach(0)), TakeList(0), FinishDrain(0), Step(SetDetached(0)),
                      Step(MakeFlow(0, 7)), Step(AssociateFlow(0)), Publish(0)]
  const TO_ASSOCIATED := [Step(ArriveFlowDelete(9, 7)), Step(Check(9)), Step(DeleteFlow(9)),
                          Step(MakeFlow(1, 8)), Step(AssociateFlow(1))]

  lemma ToEntered()
    ensures Leads(START, TO_ENTERED, SECOND_ENTERED)
  {
    hide Leads, Goes, With, Plain;
    Attaches();
    Arrives();
    Checks();
    Enters();
    SecondArrives();
    SecondChecks();
    SecondEnters();
    PathLeads([START, ATTACHED, ARRIVED, CHECKED, ENTERED, SECOND_ARRIVED, SECOND_CHECKED, SECOND_ENTERED], TO_ENTERED);
  }

  lemma ToListed()
    ensures Leads(SECOND_ENTERED, TO_LISTED, LATE_LISTED)
  {
    hide Leads, Goes, With, Plain, Late7;
    StartsFlag();
    TakesNothing();
    FinishesDrain();
    Flags();
    MakesLate();
    AssociatesLate();
    PublishesLate();
    PathLeads([SECOND_ENTERED, FLAG_STARTED, FLAG_TAKEN, FLAG_DRAINED, FLAGGED, LATE_MADE, LATE_ASSOCIATED, LATE_LISTED],
              TO_LISTED);
  }

  lemma ToAssociated()
    ensures Leads(LATE_LISTED, TO_ASSOCIATED, SECOND_ASSOCIATED)
  {
    hide Leads, Goes, With, Plain, Late7, WithDelete, SecondFlow;
    ArrivesLate();
    Skips();
    Frees();
    SecondMakes();
    SecondAssociates();
    PathLeads([LATE_LISTED, WithDelete(Arrived), WithDelete(Skipped), FREED, SECOND_MADE, SECOND_ASSOCIATED], TO_ASSOCIATED);
  }

  lemma LinksToFreed()
    ensures var s := SECOND_ASSOCIATED;
            ListEnabled(s, Publish(1)) && OwnFlowLive(s, Publish(1)) && !LinksLive(s, Publish(1))
  {
    assert SECOND_ASSOCIATED.lists[0] == [7];
  }

  /** After client_detached is set, a flow-delete call frees its flow and leaves it on the list. The next classify call
      links its own flow, which is live, to the freed one. */
  lemma FreedWhileListed()
    ensures var s := SECOND_ASSOCIATED;
            && Leads(START, TO_ENTERED + (TO_LISTED + TO_ASSOCIATED), s)
            && ListEnabled(s, Publish(1)) && OwnFlowLive(s, Publish(1)) && !LinksLive(s, Publish(1))
  {
    hide Leads, ListEnabled, OwnFlowLive, LinksLive, With, Plain, Late7, SecondFlow;
    LinksToFreed();
    ToEntered();
    ToListed();
    ToAssociated();
    LeadsOn(SECOND_ENTERED, TO_LISTED, LATE_LISTED, TO_ASSOCIATED, SECOND_ASSOCIATED);
    LeadsOn(START, TO_ENTERED, SECOND_ENTERED, TO_LISTED + TO_ASSOCIATED, SECOND_ASSOCIATED);
  }
}

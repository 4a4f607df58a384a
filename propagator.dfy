/** The propagator: it carries the parameter sets and the sample set, and
    propagates parameter values onto the samples either by reweighting
    every MC event through its dial cache or, once response functions are
    built, by rebuilding the MC histograms bin by bin.  Each worker body
    (reweightSampleEvents, fillEventDialCaches, applyResponseFunctions) is
    a method taking the worker id; running every worker one after the
    other stands for the parallel job, whose workers touch disjoint
    events or bins. */
module Propagation {
  import opened Outcomes
  import opened PhysicsEvents
  import opened FitSamples
  import opened DialCache
  import opened Partition
  import opened ResponseFunctions

  /** reweightUsingDialCache: the event weight an event receives from its
      dial cache, as a function of the event's fields. */
  type Reweight = EventState -> real

  /** refillHistogram of one sample container by every worker, followed by
      the post-parallel rescale (SampleElement is not part of this model):
      the container's new histogram, from the container (its binning and
      cached bin-event lists) and the current states of its events. */
  type Refill = (SampleElement, seq<EventState>) -> Histogram

  /** The current states of a list of events, in order. */
  function States(events: seq<PhysicsEvent>): (r: seq<EventState>)
    reads set e | e in events
    ensures |r| == |events|
    ensures forall i :: 0 <= i < |events| ==> r[i] == events[i].State()
  {
    if events == [] then [] else [events[0].State()] + States(events[1..])
  }

  /** A container whose histogram has been refilled from its events. */
  function RefilledElement(c: SampleElement, refill: Refill): SampleElement
    reads set e | e in c.eventList
  {
    c.(histogram := refill(c, States(c.eventList)))
  }

  /** A sample whose MC and data histograms have been refilled. */
  function Refilled(sample: FitSample, refill: Refill): FitSample
    reads (set e | e in sample.mc.eventList), (set e | e in sample.data.eventList)
  {
    sample.(mc := RefilledElement(sample.mc, refill), data := RefilledElement(sample.data, refill))
  }

  /** An event after a reweight pass that did or did not visit it. */
  function Reweighted(s: EventState, visited: bool, reweight: Reweight): EventState
  {
    if visited then s.(eventWeight := reweight(s)) else s
  }

  /** The MC events of a sample list. */
  ghost function McEvents(samples: seq<FitSample>): set<PhysicsEvent>
  {
    set s, i | 0 <= s < |samples| && 0 <= i < |samples[s].mc.eventList| :: samples[s].mc.eventList[i]
  }

  /** No event occurs twice in the list. */
  ghost predicate DistinctEvents(events: seq<PhysicsEvent>)
  {
    forall i, j :: 0 <= i < j < |events| ==> events[i] != events[j]
  }

  /** The events of a list, as a set. */
  ghost function EventSet(events: seq<PhysicsEvent>): set<PhysicsEvent>
  {
    set i | 0 <= i < |events| :: events[i]
  }

  /** With no MC event shared, the events of one sample are distinct and
      none of them belongs to another sample. */
  lemma SampleEventsApart(samples: seq<FitSample>, s: int)
    requires DistinctMcEvents(samples) && 0 <= s < |samples|
    ensures DistinctEvents(samples[s].mc.eventList)
    ensures forall t, j :: 0 <= t < |samples| && t != s && 0 <= j < |samples[t].mc.eventList| ==>
              samples[t].mc.eventList[j] !in EventSet(samples[s].mc.eventList)
  {
  }

  /** The stride loop of reweightSampleEvents over one event list: the
      events at start, start + step, ... are reweighted, the others are
      left as they were. */
  method ReweightList(events: seq<PhysicsEvent>, start: int, step: int, reweight: Reweight)
    requires 0 <= start && step >= 1 && DistinctEvents(events)
    modifies EventSet(events)
    ensures forall i :: 0 <= i < |events| ==>
              events[i].State() == Reweighted(old(events[i].State()), OnStride(start, step, i), reweight)
  {
    var iEvent := start;
    while iEvent < |events|
      invariant start <= iEvent && OnStride(start, step, iEvent)
      invariant forall i :: 0 <= i < |events| ==>
                  events[i].State() == if i < iEvent then Reweighted(old(events[i].State()), OnStride(start, step, i), reweight)
                                       else old(events[i].State())
      decreases |events| - iEvent
    {
      var e := events[iEvent];
      e.SetEventWeight(reweight(e.State()));
      forall i | iEvent < i <= iEvent + step ensures OnStride(start, step, i) <==> i == iEvent + step {
        StrideGap(start, step, iEvent, i);
      }
      iEvent := iEvent + step;
    }
  }

  /** One event's dial list sized by initializeCaches. */
  method ResizeDialLists(events: seq<PhysicsEvent>, preSize: nat)
    requires DistinctEvents(events)
    modifies EventSet(events)
    ensures forall i :: 0 <= i < |events| ==>
              events[i].State() == old(events[i].State()).(rawDialPtrList := Resized(old(events[i].rawDialPtrList), preSize))
  {
    var i := 0;
    while i < |events|
      invariant 0 <= i <= |events|
      invariant forall j :: 0 <= j < |events| ==>
                  events[j].State() == if j < i then old(events[j].State()).(rawDialPtrList := Resized(old(events[j].rawDialPtrList), preSize))
                                       else old(events[j].State())
    {
      var e := events[i];
      e.rawDialPtrList := Resized(e.rawDialPtrList, preSize);
      i := i + 1;
    }
  }

  // ---------------------------------------------------------------------
  // The dial cache of one event (fillEventDialCaches).

  /** The bin test of one dial: every variable of the condition bin, read
      with getVarAsDouble, lies between its edges; the first variable that
      does not ends the test. */
  method EvalInBin(e: PhysicsEvent, bin: DataBin) returns (r: Result<bool, LeafError>)
    ensures r == InBin(bin, e.GetLeaves())
  {
    var v := 0;
    while v < |bin.variableNameList|
      invariant 0 <= v <= |bin.variableNameList|
      invariant InBinFrom(bin, e.GetLeaves(), v) == InBin(bin, e.GetLeaves())
    {
      var value :- e.GetVarAsDouble(bin.variableNameList[v], 0);
      if !bin.isBetweenEdges(v, value) {
        return Success(false);
      }
      v := v + 1;
    }
    return Success(true);
  }

  /** The dial loop of one dial set: the index of the first dial whose
      condition bin holds the event. */
  method FindFirstDial(e: PhysicsEvent, dials: seq<Dial>) returns (r: Result<Option<nat>, LeafError>)
    ensures r == FirstDialFrom(dials, e.GetLeaves(), 0)
  {
    var j := 0;
    while j < |dials|
      invariant 0 <= j <= |dials|
      invariant FirstDialFrom(dials, e.GetLeaves(), j) == FirstDialFrom(dials, e.GetLeaves(), 0)
    {
      var inBin :- EvalInBin(e, dials[j].applyConditionBin);
      if inBin {
        return Success(Some(j));
      }
      j := j + 1;
    }
    return Success(None);
  }

  /** The dial sets of one parameter set, for one event: each matched dial
      is written at the running offset, which moves on by one; in
      one-parameter-per-event mode the first match ends the group.  On
      entry the event's dial list holds `acc` written over `list0`. */
  method FillGroup(e: PhysicsEvent, grp: Group, dataSet: string, offset: nat,
                   ghost list0: seq<Option<DialRef>>, ghost acc: seq<DialRef>)
    returns (outcome: Outcome<LeafError>, newOffset: nat)
    requires offset == |acc| && offset + GroupSlots(grp) <= |list0|
    requires e.rawDialPtrList == Written(list0, acc)
    modifies e
    ensures var r := CandidatesFrom(grp, dataSet, old(e.GetLeaves()), 0);
            outcome.Pass? ==> r.Success? && newOffset == offset + |r.value| && newOffset <= |list0|
                              && e.rawDialPtrList == Written(list0, acc + r.value)
    ensures outcome.Fail? ==> CandidatesFrom(grp, dataSet, old(e.GetLeaves()), 0) == Failure(outcome.error)
    ensures e.State() == old(e.State()).(rawDialPtrList := e.rawDialPtrList) && |e.rawDialPtrList| == |list0|
  {
    var leaves := e.GetLeaves();
    newOffset := offset;
    ghost var gacc: seq<DialRef> := [];
    PrependedNothing(CandidatesFrom(grp, dataSet, leaves, 0));
    var k := 0;
    while k < |grp.candidates|
      invariant 0 <= k <= |grp.candidates|
      invariant newOffset == offset + |gacc|
      invariant newOffset + (if grp.useOnlyOneParameterPerEvent then 1 else |grp.candidates| - k) <= |list0|
      invariant grp.useOnlyOneParameterPerEvent ==> gacc == []
      invariant e.rawDialPtrList == Written(list0, acc + gacc)
      invariant e.State() == old(e.State()).(rawDialPtrList := e.rawDialPtrList)
      invariant Prepended(gacc, CandidatesFrom(grp, dataSet, leaves, k)) == CandidatesFrom(grp, dataSet, leaves, 0)
    {
      var dialSet := grp.candidates[k].dialSet;
      if dialSet.applyConditionFormula.Some? && dialSet.applyConditionFormula.value(leaves) == 0.0 {
        assert MatchOf(grp.candidates[k], leaves) == Success(None);
        k := k + 1;
        continue;
      }
      var m := FindFirstDial(e, dialSet.dialList);
      assert m == MatchOf(grp.candidates[k], leaves);
      if m.Failure? {
        return Fail(m.error), newOffset;
      }
      if m.value.Some? {
        var ref := DialRef(grp.parameterSet, grp.candidates[k].parameter, dataSet, m.value.value);
        WrittenNext(list0, acc + gacc, ref);
        e.rawDialPtrList := e.rawDialPtrList[newOffset := Some(ref)];
        newOffset := newOffset + 1;
        assert acc + gacc + [ref] == acc + (gacc + [ref]);
        if grp.useOnlyOneParameterPerEvent {
          assert CandidatesFrom(grp, dataSet, leaves, k) == Success([ref]);
          PrependedNothing(CandidatesFrom(grp, dataSet, leaves, k));
          assert CandidatesFrom(grp, dataSet, leaves, 0) == Success([ref]);
          return Pass, newOffset;
        }
        assert CandidatesFrom(grp, dataSet, leaves, k) == Prepended([ref], CandidatesFrom(grp, dataSet, leaves, k + 1));
        PrependedTwice(gacc, [ref], CandidatesFrom(grp, dataSet, leaves, k + 1));
        gacc := gacc + [ref];
      }
      k := k + 1;
    }
    assert gacc + [] == gacc;
    return Pass, newOffset;
  }

  /** The dial cache of one event for one data set: the groups in order,
      the offset running on from group to group. */
  method FillEventDialCache(e: PhysicsEvent, groups: seq<Group>, dataSet: string) returns (outcome: Outcome<LeafError>)
    requires GroupsSlots(groups, 0) <= |e.rawDialPtrList|
    modifies e
    ensures var r := AssignEvent(groups, dataSet, old(e.GetLeaves()));
            outcome.Pass? ==> r.Success? && |r.value| <= |old(e.rawDialPtrList)|
                              && e.rawDialPtrList == Written(old(e.rawDialPtrList), r.value)
    ensures outcome.Fail? ==> AssignEvent(groups, dataSet, old(e.GetLeaves())) == Failure(outcome.error)
    ensures e.State() == old(e.State()).(rawDialPtrList := e.rawDialPtrList)
    ensures |e.rawDialPtrList| == |old(e.rawDialPtrList)|
  {
    var leaves := e.GetLeaves();
    ghost var list0 := e.rawDialPtrList;
    ghost var acc: seq<DialRef> := [];
    assert Written(list0, acc) == list0;
    PrependedNothing(GroupsFrom(groups, dataSet, leaves, 0));
    var offset := 0;
    var g := 0;
    while g < |groups|
      invariant 0 <= g <= |groups|
      invariant offset == |acc| && offset + GroupsSlots(groups, g) <= |list0|
      invariant e.rawDialPtrList == Written(list0, acc)
      invariant e.State() == old(e.State()).(rawDialPtrList := e.rawDialPtrList)
      invariant Prepended(acc, GroupsFrom(groups, dataSet, leaves, g)) == GroupsFrom(groups, dataSet, leaves, 0)
    {
      CandidatesFromSize(groups[g], dataSet, leaves, 0);
      var o, next := FillGroup(e, groups[g], dataSet, offset, list0, acc);
      if o.Fail? {
        return Fail(o.error);
      }
      ghost var here := CandidatesFrom(groups[g], dataSet, leaves, 0).value;
      assert GroupsFrom(groups, dataSet, leaves, g) == Prepended(here, GroupsFrom(groups, dataSet, leaves, g + 1));
      if GroupsFrom(groups, dataSet, leaves, g + 1).Success? {
        assert acc + (here + GroupsFrom(groups, dataSet, leaves, g + 1).value)
            == (acc + here) + GroupsFrom(groups, dataSet, leaves, g + 1).value;
      }
      acc := acc + here;
      offset := next;
      g := g + 1;
    }
    return Pass;
  }

  /** The dial-cache loop of worker `t` of `n` visits event `i` of an MC
      container for data set `d`: the container holds data set `d`, `i`
      lies from the data set's offset up to (not including) the data set's
      event count, and the worker owns `i`.  The loop compares unsigned
      values: a negative offset is a start past every event, and worker -1
      owns nothing. */
  predicate Visits(mc: SampleElement, d: nat, i: int, t: int, n: int)
    requires n >= 1
  {
    && d in mc.dataSetIndexList && d < |mc.eventOffSetList| && d < |mc.eventNbList|
    && 0 <= mc.eventOffSetList[d] <= i < mc.eventNbList[d]
    && Owns(t, n, i)
  }

  /** The dials an event is assigned for a data set, from the candidate
      groups of the parameter sets; they always fit in a dial list of the
      pre-size. */
  function Assigned(parSets: seq<FitParameterSet>, dataSet: string, leaves: Leaves): (r: Result<seq<DialRef>, LeafError>)
    ensures r.Success? ==> |r.value| <= PreSize(parSets)
  {
    AssignmentFitsPreSize(parSets, dataSet, leaves);
    AssignEvent(CandidateGroups(parSets, dataSet), dataSet, leaves)
  }

  /** An event's dial list after the pass over data set `d`: rewritten
      from offset 0 with the dials the event is assigned when the pass
      visits it, unchanged otherwise; the leaf lookup can fail. */
  function DialListStep(list: seq<Option<DialRef>>, leaves: Leaves, mc: SampleElement, i: int, d: nat,
                        dataSet: string, parSets: seq<FitParameterSet>, t: int, n: int)
    : (r: Result<seq<Option<DialRef>>, LeafError>)
    requires n >= 1 && PreSize(parSets) <= |list|
    ensures r.Success? ==> |r.value| == |list|
    ensures !Visits(mc, d, i, t, n) ==> r == Success(list)
  {
    if !Visits(mc, d, i, t, n) then Success(list)
    else
      var refs :- Assigned(parSets, dataSet, leaves);
      Success(Written(list, refs))
  }

  /** An event's dial list after the passes over data sets 0 .. d-1. */
  function DialListAfter(list: seq<Option<DialRef>>, leaves: Leaves, mc: SampleElement, i: int,
                         names: seq<string>, parSets: seq<FitParameterSet>, t: int, n: int, d: nat)
    : (r: Result<seq<Option<DialRef>>, LeafError>)
    requires n >= 1 && PreSize(parSets) <= |list| && d <= |names|
    ensures r.Success? ==> |r.value| == |list|
  {
    if d == 0 then Success(list)
    else
      var prev :- DialListAfter(list, leaves, mc, i, names, parSets, t, n, d - 1);
      DialListStep(prev, leaves, mc, i, d - 1, names[d - 1], parSets, t, n)
  }

  /** The event loop of fillEventDialCaches over one MC container and one
      data set: events from the data set's offset up to its event count,
      each handled when the worker owns it. */
  method FillSampleEvents(mc: SampleElement, d: nat, dataSet: string, groups: seq<Group>,
                          ghost parSets: seq<FitParameterSet>, iThread: int, nThreads: int)
    returns (outcome: Outcome<LeafError>)
    requires nThreads >= 1 && groups == CandidateGroups(parSets, dataSet)
    requires d in mc.dataSetIndexList
    requires d < |mc.eventOffSetList| && d < |mc.eventNbList| && 0 <= mc.eventNbList[d] <= |mc.eventList|
    requires DistinctEvents(mc.eventList)
    requires forall i :: 0 <= i < |mc.eventList| ==> PreSize(parSets) <= |mc.eventList[i].rawDialPtrList|
    modifies EventSet(mc.eventList)
    ensures outcome.Pass? ==>
              forall i :: 0 <= i < |mc.eventList| ==>
                var e := mc.eventList[i];
                var r := DialListStep(old(e.rawDialPtrList), old(e.GetLeaves()), mc, i, d, dataSet, parSets, iThread, nThreads);
                r.Success? && e.rawDialPtrList == r.value
    ensures outcome.Fail? ==>
              exists i :: 0 <= i < |mc.eventList| &&
                DialListStep(old(mc.eventList[i].rawDialPtrList), old(mc.eventList[i].GetLeaves()), mc, i, d, dataSet,
                             parSets, iThread, nThreads) == Failure(outcome.error)
    ensures forall i :: 0 <= i < |mc.eventList| ==>
              var e := mc.eventList[i];
              e.State() == old(e.State()).(rawDialPtrList := e.rawDialPtrList) && |e.rawDialPtrList| == |old(e.rawDialPtrList)|
  {
    var start := mc.eventOffSetList[d];
    var nEvents := mc.eventNbList[d];
    if start < 0 {
      return Pass;
    }
    CandidateSlotsWithinPreSize(parSets, dataSet, |parSets|);
    assert parSets[..|parSets|] == parSets;
    var iEvent := start;
    while iEvent < nEvents
      invariant start <= iEvent
      invariant forall i :: 0 <= i < |mc.eventList| ==>
                  var e := mc.eventList[i];
                  && e.State() == old(e.State()).(rawDialPtrList := e.rawDialPtrList)
                  && |e.rawDialPtrList| == |old(e.rawDialPtrList)|
                  && (i < iEvent ==>
                        var r := DialListStep(old(e.rawDialPtrList), old(e.GetLeaves()), mc, i, d, dataSet, parSets, iThread, nThreads);
                        r.Success? && e.rawDialPtrList == r.value)
                  && (iEvent <= i ==> e.rawDialPtrList == old(e.rawDialPtrList))
    {
      if iEvent % nThreads == iThread {
        var e := mc.eventList[iEvent];
        assert Visits(mc, d, iEvent, iThread, nThreads);
        var o := FillEventDialCache(e, groups, dataSet);
        if o.Fail? {
          return Fail(o.error);
        }
      } else {
        assert !Visits(mc, d, iEvent, iThread, nThreads);
      }
      iEvent := iEvent + 1;
    }
    return Pass;
  }

  /** The data sets of every sample are addressable: a data set a
      container holds has an offset and an event count, and the count does
      not pass the container's events. */
  predicate DialCacheIndexable(samples: seq<FitSample>, nbDataSets: nat)
  {
    forall s, d :: 0 <= s < |samples| && 0 <= d < nbDataSets && d in samples[s].mc.dataSetIndexList ==>
      d < |samples[s].mc.eventOffSetList| && d < |samples[s].mc.eventNbList|
      && 0 <= samples[s].mc.eventNbList[d] <= |samples[s].mc.eventList|
  }

  /** The state of every MC event, by event. */
  ghost function StateMap(samples: seq<FitSample>): map<PhysicsEvent, EventState>
    reads McEvents(samples)
  {
    map e | e in McEvents(samples) :: e.State()
  }

  /** The event differs from its state in `orig` in its dial list at most. */
  ghost predicate StateKept(e: PhysicsEvent, orig: map<PhysicsEvent, EventState>)
    reads e
  {
    e in orig && e.State() == orig[e].(rawDialPtrList := e.rawDialPtrList)
  }

  /** Every MC event differs from its state in `orig` in its dial list at
      most. */
  ghost predicate StatesKept(samples: seq<FitSample>, orig: map<PhysicsEvent, EventState>)
    reads McEvents(samples)
  {
    forall s, i :: 0 <= s < |samples| && 0 <= i < |samples[s].mc.eventList| ==> StateKept(samples[s].mc.eventList[i], orig)
  }

  /** Event `i` of container `mc` is its state in `orig` with the dial list
      it has after the passes over data sets 0 .. d-1. */
  ghost predicate DialListAt(e: PhysicsEvent, mc: SampleElement, i: int, orig: map<PhysicsEvent, EventState>,
                             names: seq<string>, parSets: seq<FitParameterSet>, t: int, n: int, d: nat)
    requires n >= 1
    reads e
  {
    && StateKept(e, orig) && PreSize(parSets) <= |orig[e].rawDialPtrList| && d <= |names|
    && var r := DialListAfter(orig[e].rawDialPtrList, orig[e].leaves, mc, i, names, parSets, t, n, d);
       r.Success? && e.rawDialPtrList == r.value
  }

  /** Every MC event is as DialListAt says after the passes over data sets
      0 .. d-1, and, for the samples before `upTo`, the pass over data set d
      as well. */
  ghost predicate DialListsAfter(samples: seq<FitSample>, orig: map<PhysicsEvent, EventState>, names: seq<string>,
                                 parSets: seq<FitParameterSet>, t: int, n: int, d: nat, upTo: int)
    requires n >= 1
    reads McEvents(samples)
  {
    forall s, i :: 0 <= s < |samples| && 0 <= i < |samples[s].mc.eventList| ==>
      DialListAt(samples[s].mc.eventList[i], samples[s].mc, i, orig, names, parSets, t, n, if s < upTo then d + 1 else d)
  }

  /** Some MC event, started from its state in `orig`, fails one of the
      passes over data sets 0 .. d-1. */
  ghost predicate DialPassFailed(samples: seq<FitSample>, orig: map<PhysicsEvent, EventState>, names: seq<string>,
                                 parSets: seq<FitParameterSet>, t: int, n: int, d: nat)
    requires n >= 1
  {
    exists s, i, k: nat :: 0 <= s < |samples| && 0 <= i < |samples[s].mc.eventList| && k <= d &&
      var e := samples[s].mc.eventList[i];
      e in orig && PreSize(parSets) <= |orig[e].rawDialPtrList| && k <= |names| &&
      DialListAfter(orig[e].rawDialPtrList, orig[e].leaves, samples[s].mc, i, names, parSets, t, n, k).Failure?
  }

  /** Events whose dial lists are as the passes make them differ from
      their original state in their dial lists at most. */
  lemma DialListsKeepStates(samples: seq<FitSample>, orig: map<PhysicsEvent, EventState>, names: seq<string>,
                            parSets: seq<FitParameterSet>, t: int, n: int, d: nat, upTo: int)
    requires n >= 1 && DialListsAfter(samples, orig, names, parSets, t, n, d, upTo)
    ensures StatesKept(samples, orig)
  {
  }

  /** Before any pass, every event is as it was. */
  lemma DialListsAtStart(samples: seq<FitSample>, names: seq<string>, parSets: seq<FitParameterSet>, t: int, n: int)
    requires n >= 1
    requires forall s, i :: 0 <= s < |samples| && 0 <= i < |samples[s].mc.eventList| ==>
               PreSize(parSets) <= |samples[s].mc.eventList[i].rawDialPtrList|
    ensures DialListsAfter(samples, StateMap(samples), names, parSets, t, n, 0, 0)
  {
    forall s, i | 0 <= s < |samples| && 0 <= i < |samples[s].mc.eventList|
      ensures DialListAt(samples[s].mc.eventList[i], samples[s].mc, i, StateMap(samples), names, parSets, t, n, 0)
    {
      assert samples[s].mc.eventList[i] in McEvents(samples);
    }
  }

  /** The pass over data set d continues from the passes before it. */
  lemma DialListAfterNextIs(list: seq<Option<DialRef>>, leaves: Leaves, mc: SampleElement, i: int,
                            names: seq<string>, parSets: seq<FitParameterSet>, t: int, n: int, d: nat)
    requires n >= 1 && PreSize(parSets) <= |list| && d < |names|
    ensures DialListAfter(list, leaves, mc, i, names, parSets, t, n, d).Success? ==>
              DialListAfter(list, leaves, mc, i, names, parSets, t, n, d + 1)
              == DialListStep(DialListAfter(list, leaves, mc, i, names, parSets, t, n, d).value, leaves, mc, i, d, names[d], parSets, t, n)
    ensures DialListAfter(list, leaves, mc, i, names, parSets, t, n, d).Failure? ==>
              DialListAfter(list, leaves, mc, i, names, parSets, t, n, d + 1).Failure?
  {
  }

  /** Having done data set d for every sample is having done data sets
      0 .. d for none past the first. */
  lemma DialListsAfterNext(samples: seq<FitSample>, orig: map<PhysicsEvent, EventState>, names: seq<string>,
                           parSets: seq<FitParameterSet>, t: int, n: int, d: nat)
    requires n >= 1 && DialListsAfter(samples, orig, names, parSets, t, n, d, |samples|)
    ensures DialListsAfter(samples, orig, names, parSets, t, n, d + 1, 0)
  {
  }

  /** A failed pass stays failed through the later passes. */
  lemma DialPassFailedStays(samples: seq<FitSample>, orig: map<PhysicsEvent, EventState>, names: seq<string>,
                            parSets: seq<FitParameterSet>, t: int, n: int, d: nat, e: nat)
    requires n >= 1 && d <= e && DialPassFailed(samples, orig, names, parSets, t, n, d)
    ensures DialPassFailed(samples, orig, names, parSets, t, n, e)
  {
  }

  /** The pass of fillEventDialCaches over one data set: every sample
      holding it, in order. */
  method FillDataSet(samples: seq<FitSample>, ghost orig: map<PhysicsEvent, EventState>, names: seq<string>,
                     d: nat, parSets: seq<FitParameterSet>, iThread: int, nThreads: int)
    returns (outcome: Outcome<LeafError>)
    requires nThreads >= 1 && d < |names|
    requires DistinctMcEvents(samples) && DialCacheIndexable(samples, |names|)
    requires DialListsAfter(samples, orig, names, parSets, iThread, nThreads, d, 0)
    modifies McEvents(samples)
    ensures StatesKept(samples, orig)
    ensures outcome.Pass? ==> DialListsAfter(samples, orig, names, parSets, iThread, nThreads, d + 1, 0)
    ensures outcome.Fail? ==> DialPassFailed(samples, orig, names, parSets, iThread, nThreads, d + 1)
  {
    var groups := BuildCandidateGroups(parSets, names[d]);
    var s := 0;
    while s < |samples|
      invariant 0 <= s <= |samples|
      invariant DialListsAfter(samples, orig, names, parSets, iThread, nThreads, d, s)
    {
      outcome := FillSampleDataSet(samples, orig, names, d, groups, parSets, iThread, nThreads, s);
      if outcome.Fail? {
        return;
      }
      s := s + 1;
    }
    DialListsAfterNext(samples, orig, names, parSets, iThread, nThreads, d);
    return Pass;
  }

  /** One sample of the pass over data set d: if the sample holds the data
      set its events get their dials for it, and no other event changes. */
  method FillSampleDataSet(samples: seq<FitSample>, ghost orig: map<PhysicsEvent, EventState>, names: seq<string>,
                           d: nat, groups: seq<Group>, ghost parSets: seq<FitParameterSet>, iThread: int, nThreads: int,
                           s: nat)
    returns (outcome: Outcome<LeafError>)
    requires nThreads >= 1 && d < |names| && groups == CandidateGroups(parSets, names[d])
    requires DistinctMcEvents(samples) && DialCacheIndexable(samples, |names|) && s < |samples|
    requires DialListsAfter(samples, orig, names, parSets, iThread, nThreads, d, s)
    modifies McEvents(samples)
    ensures StatesKept(samples, orig)
    ensures outcome.Pass? ==> DialListsAfter(samples, orig, names, parSets, iThread, nThreads, d, s + 1)
    ensures outcome.Fail? ==> DialPassFailed(samples, orig, names, parSets, iThread, nThreads, d + 1)
  {
    var mc := samples[s].mc;
    SampleEventsApart(samples, s);
    label BeforeFill:
    outcome := Pass;
    if d in mc.dataSetIndexList {
      outcome := FillSampleEvents(mc, d, names[d], groups, parSets, iThread, nThreads);
    }
    forall t, i | 0 <= t < |samples| && t != s && 0 <= i < |samples[t].mc.eventList|
      ensures DialListAt(samples[t].mc.eventList[i], samples[t].mc, i, orig, names, parSets, iThread, nThreads,
                         if t < s then d + 1 else d)
    {
      assert old@BeforeFill(DialListAt(samples[t].mc.eventList[i], samples[t].mc, i, orig, names, parSets, iThread, nThreads,
                                       if t < s then d + 1 else d));
    }
    forall i | 0 <= i < |mc.eventList|
      ensures StateKept(mc.eventList[i], orig)
    {
      assert old@BeforeFill(DialListAt(mc.eventList[i], mc, i, orig, names, parSets, iThread, nThreads, d));
    }
    if outcome.Fail? {
      ghost var i :| 0 <= i < |mc.eventList| &&
        DialListStep(old@BeforeFill(mc.eventList[i].rawDialPtrList), old@BeforeFill(mc.eventList[i].GetLeaves()), mc, i, d,
                     names[d], parSets, iThread, nThreads) == Failure(outcome.error);
      ghost var e := mc.eventList[i];
      assert old@BeforeFill(DialListAt(e, mc, i, orig, names, parSets, iThread, nThreads, d));
      DialListAfterNextIs(orig[e].rawDialPtrList, orig[e].leaves, mc, i, names, parSets, iThread, nThreads, d);
      return;
    }
    forall i | 0 <= i < |mc.eventList|
      ensures DialListAt(mc.eventList[i], mc, i, orig, names, parSets, iThread, nThreads, d + 1)
    {
      var e := mc.eventList[i];
      assert old@BeforeFill(DialListAt(e, mc, i, orig, names, parSets, iThread, nThreads, d));
      DialListAfterNextIs(orig[e].rawDialPtrList, orig[e].leaves, mc, i, names, parSets, iThread, nThreads, d);
      if d !in mc.dataSetIndexList {
        assert !Visits(mc, d, i, iThread, nThreads);
      }
    }
  }

  /** The candidate dial sets of one data set, grouped by parameter set
      (`dialSetPtrMap` of fillEventDialCaches). */
  method BuildCandidateGroups(parSets: seq<FitParameterSet>, dataSet: string) returns (groups: seq<Group>)
    ensures groups == CandidateGroups(parSets, dataSet)
  {
    groups := [];
    var p := 0;
    while p < |parSets|
      invariant 0 <= p <= |parSets|
      invariant groups == CandidateGroupsUpTo(parSets, dataSet, p)
    {
      var parSet := parSets[p];
      if parSet.isEnabled {
        var cands := BuildParameterCandidates(parSet.parameterList, dataSet);
        if |cands| > 0 {
          groups := groups + [Group(p, parSet.useOnlyOneParameterPerEvent, cands)];
        }
      }
      p := p + 1;
    }
  }

  /** The candidate dial sets of one parameter set for one data set, in
      parameter order. */
  method BuildParameterCandidates(pars: seq<FitParameter>, dataSet: string) returns (cands: seq<Candidate>)
    ensures cands == ParameterCandidates(pars, dataSet, |pars|)
  {
    cands := [];
    var q := 0;
    while q < |pars|
      invariant 0 <= q <= |pars|
      invariant cands == ParameterCandidates(pars, dataSet, q)
    {
      var par := pars[q];
      if par.isEnabled {
        var dialSet := FindDialSet(par, dataSet);
        if dialSet.Some? && |dialSet.value.dialList| > 0 {
          cands := cands + [Candidate(q, dialSet.value)];
        }
      }
      q := q + 1;
    }
  }

  /** fillEventDialCaches(iThread): for every data set in order, every
      sample holding it, every event of that data set the worker owns, the
      event's dial list is rewritten from offset 0 with the dials it is
      assigned, and nothing else of any event changes.  A failed leaf lookup
      ends the worker; some event then fails one of its passes. */
  method FillDialCaches(samples: seq<FitSample>, names: seq<string>, parSets: seq<FitParameterSet>, iThread: int, nThreads: int,
                        ghost orig: map<PhysicsEvent, EventState>)
    returns (outcome: Outcome<LeafError>)
    requires nThreads >= 1
    requires DialListsAfter(samples, orig, names, parSets, iThread, nThreads, 0, 0)
    requires DistinctMcEvents(samples) && DialCacheIndexable(samples, |names|)
    modifies McEvents(samples)
    ensures StatesKept(samples, orig)
    ensures outcome.Pass? ==> DialListsAfter(samples, orig, names, parSets, iThread, nThreads, |names|, 0)
    ensures outcome.Fail? ==> DialPassFailed(samples, orig, names, parSets, iThread, nThreads, |names|)
  {
    var d := 0;
    while d < |names|
      invariant 0 <= d <= |names|
      invariant DialListsAfter(samples, orig, names, parSets, iThread, nThreads, d, 0)
    {
      outcome := FillDataSet(samples, orig, names, d, parSets, iThread, nThreads);
      if outcome.Fail? {
        DialPassFailedStays(samples, orig, names, parSets, iThread, nThreads, d + 1, |names|);
        return;
      }
      d := d + 1;
    }
    DialListsKeepStates(samples, orig, names, parSets, iThread, nThreads, |names|, 0);
    return Pass;
  }

  /** The MC histogram of every sample. */
  function McHistograms(samples: seq<FitSample>): (hs: seq<Histogram>)
    ensures |hs| == |samples| && forall s :: 0 <= s < |samples| ==> hs[s] == samples[s].mc.histogram
  {
    seq(|samples|, s requires 0 <= s < |samples| => samples[s].mc.histogram)
  }

  /** The samples with their MC histograms replaced by `hs`, nothing else
      changed. */
  function WithMcHistograms(samples: seq<FitSample>, hs: seq<Histogram>): (r: seq<FitSample>)
    requires |hs| == |samples|
    ensures |r| == |samples| && McHistograms(r) == hs
    ensures forall s :: 0 <= s < |samples| ==> r[s] == samples[s].(mc := samples[s].mc.(histogram := hs[s]))
  {
    seq(|samples|, s requires 0 <= s < |samples| => samples[s].(mc := samples[s].mc.(histogram := hs[s])))
  }

  class Propagator {
    /** The sample set the propagator works on. */
    const sampleSet: FitSampleSet
    /** GlobalVariables::getNbThreads(). */
    const nbThreads: int
    var parameterSetsList: seq<FitParameterSet>
    var useResponseFunctions: bool
    var isRfPropagationEnabled: bool
    /** Per sample position: the nominal MC bin contents
        (_nominalSamplesMcHistogram_). */
    var nominalSamplesMcContent: seq<seq<real>>
    /** Per sample position, per parameter in parameter-set order: the
        deviation bin contents (_responseFunctionsSamplesMcHistogram_). */
    var responseFunctionsContent: seq<seq<seq<real>>>

    constructor (sampleSet: FitSampleSet, nbThreads: int, parameterSetsList: seq<FitParameterSet>)
      requires nbThreads >= 1
      ensures this.sampleSet == sampleSet && this.nbThreads == nbThreads
      ensures this.parameterSetsList == parameterSetsList
      ensures !useResponseFunctions && !isRfPropagationEnabled
      ensures nominalSamplesMcContent == [] && responseFunctionsContent == []
    {
      this.sampleSet := sampleSet;
      this.nbThreads := nbThreads;
      this.parameterSetsList := parameterSetsList;
      useResponseFunctions := false;
      isRfPropagationEnabled := false;
      nominalSamplesMcContent := [];
      responseFunctionsContent := [];
    }

    /** preventRfPropagation: the flag goes down, nothing else changes. */
    method PreventRfPropagation()
      modifies this
      ensures !isRfPropagationEnabled
      ensures parameterSetsList == old(parameterSetsList) && useResponseFunctions == old(useResponseFunctions)
      ensures nominalSamplesMcContent == old(nominalSamplesMcContent)
      ensures responseFunctionsContent == old(responseFunctionsContent)
    {
      if isRfPropagationEnabled {
        isRfPropagationEnabled := false;
      }
    }

    /** allowRfPropagation: the flag goes up, nothing else changes. */
    method AllowRfPropagation()
      modifies this
      ensures isRfPropagationEnabled
      ensures parameterSetsList == old(parameterSetsList) && useResponseFunctions == old(useResponseFunctions)
      ensures nominalSamplesMcContent == old(nominalSamplesMcContent)
      ensures responseFunctionsContent == old(responseFunctionsContent)
    {
      if !isRfPropagationEnabled {
        isRfPropagationEnabled := true;
      }
    }

    /** The strategy of propagateParametersOnSamples: response functions
        only when they are both in use and enabled. */
    function UsesResponseFunctions(): (b: bool)
      reads this
      ensures b <==> useResponseFunctions && isRfPropagationEnabled
    {
      !(!useResponseFunctions || !isRfPropagationEnabled)
    }

    /** The dial-list size of initializeCaches, summed over the parameter
        sets. */
    method ComputePreSize() returns (preSize: nat)
      ensures preSize == PreSize(parameterSetsList)
    {
      preSize := 0;
      var k := 0;
      while k < |parameterSetsList|
        invariant 0 <= k <= |parameterSetsList|
        invariant preSize == PreSize(parameterSetsList[..k])
      {
        var parSet := parameterSetsList[k];
        if parSet.useOnlyOneParameterPerEvent {
          preSize := preSize + 1;
        } else {
          preSize := preSize + |parSet.parameterList|;
        }
        assert parameterSetsList[..k + 1][..k] == parameterSetsList[..k];
        k := k + 1;
      }
      assert parameterSetsList[..k] == parameterSetsList;
    }

    /** initializeCaches: every MC event's dial list is resized to the
        pre-size; nothing else changes. */
    method InitializeCaches()
      requires DistinctMcEvents(sampleSet.fitSampleList)
      modifies McEvents(sampleSet.fitSampleList)
      ensures forall s, i :: 0 <= s < |sampleSet.fitSampleList| && 0 <= i < |sampleSet.fitSampleList[s].mc.eventList| ==>
                var e := sampleSet.fitSampleList[s].mc.eventList[i];
                e.State() == old(e.State()).(rawDialPtrList := Resized(old(e.rawDialPtrList), PreSize(parameterSetsList)))
    {
      var samples := sampleSet.fitSampleList;
      var preSize := ComputePreSize();
      var s := 0;
      while s < |samples|
        invariant 0 <= s <= |samples|
        invariant forall t, i :: 0 <= t < |samples| && 0 <= i < |samples[t].mc.eventList| ==>
                    var e := samples[t].mc.eventList[i];
                    e.State() == if t < s then old(e.State()).(rawDialPtrList := Resized(old(e.rawDialPtrList), preSize))
                                 else old(e.State())
      {
        SampleEventsApart(samples, s);
        ResizeDialLists(samples[s].mc.eventList, preSize);
        s := s + 1;
      }
    }

    /** reweightSampleEvents(iThread): worker `iThread` reweights, in every
        sample, the MC events on its stride (iThread, iThread + n, ...);
        worker -1 stands for a single worker visiting every event. */
    method ReweightSampleEvents(iThread: int, reweight: Reweight)
      requires nbThreads >= 1 && iThread >= -1
      requires DistinctMcEvents(sampleSet.fitSampleList)
      modifies McEvents(sampleSet.fitSampleList)
      ensures forall s, i :: 0 <= s < |sampleSet.fitSampleList| && 0 <= i < |sampleSet.fitSampleList[s].mc.eventList| ==>
                var e := sampleSet.fitSampleList[s].mc.eventList[i];
                e.State() == Reweighted(old(e.State()), OnStride(StrideStart(iThread), StrideStep(iThread, nbThreads), i), reweight)
    {
      var nThreads := nbThreads;
      var start := iThread;
      if iThread == -1 {
        nThreads := 1;
        start := 0;
      }
      var samples := sampleSet.fitSampleList;
      var s := 0;
      while s < |samples|
        invariant 0 <= s <= |samples|
        invariant forall t, i :: 0 <= t < |samples| && 0 <= i < |samples[t].mc.eventList| ==>
                    var e := samples[t].mc.eventList[i];
                    e.State() == if t < s then Reweighted(old(e.State()), OnStride(start, nThreads, i), reweight)
                                 else old(e.State())
      {
        SampleEventsApart(samples, s);
        ReweightList(samples[s].mc.eventList, start, nThreads, reweight);
        s := s + 1;
      }
    }

    /** fillEventDialCaches(iThread), over this propagator's parameter sets
        and sample set. */
    method FillEventDialCaches(iThread: int) returns (outcome: Outcome<LeafError>)
      requires nbThreads >= 1
      requires DistinctMcEvents(sampleSet.fitSampleList)
      requires DialCacheIndexable(sampleSet.fitSampleList, |sampleSet.dataSetList|)
      requires forall s, i :: 0 <= s < |sampleSet.fitSampleList| && 0 <= i < |sampleSet.fitSampleList[s].mc.eventList| ==>
                 PreSize(parameterSetsList) <= |sampleSet.fitSampleList[s].mc.eventList[i].rawDialPtrList|
      modifies McEvents(sampleSet.fitSampleList)
      ensures StatesKept(sampleSet.fitSampleList, old(StateMap(sampleSet.fitSampleList)))
      ensures outcome.Pass? ==>
                DialListsAfter(sampleSet.fitSampleList, old(StateMap(sampleSet.fitSampleList)), sampleSet.dataSetList,
                               parameterSetsList, iThread, nbThreads, |sampleSet.dataSetList|, 0)
      ensures outcome.Fail? ==>
                DialPassFailed(sampleSet.fitSampleList, old(StateMap(sampleSet.fitSampleList)), sampleSet.dataSetList,
                               parameterSetsList, iThread, nbThreads, |sampleSet.dataSetList|)
    {
      DialListsAtStart(sampleSet.fitSampleList, sampleSet.dataSetList, parameterSetsList, iThread, nbThreads);
      outcome := FillDialCaches(sampleSet.fitSampleList, sampleSet.dataSetList, parameterSetsList, iThread, nbThreads,
                                StateMap(sampleSet.fitSampleList));
    }
    /** applyResponseFunctions(iThread): in every sample's MC histogram the
        bins the worker owns, content and error, become those rebuilt from
        the nominal contents and the deviations; nothing else changes. */
    method ApplyResponseFunctions(iThread: int, sqrt: real -> real)
      requires nbThreads >= 1
      requires RfReady(McHistograms(sampleSet.fitSampleList), nominalSamplesMcContent, responseFunctionsContent,
                       |Distances(parameterSetsList)|)
      modifies sampleSet`fitSampleList
      ensures |sampleSet.fitSampleList| == |old(sampleSet.fitSampleList)|
      ensures sampleSet.fitSampleList == WithMcHistograms(old(sampleSet.fitSampleList), McHistograms(sampleSet.fitSampleList))
      ensures forall s :: 0 <= s < |sampleSet.fitSampleList| ==>
                TakesOwnedBins(old(sampleSet.fitSampleList[s].mc.histogram), sampleSet.fitSampleList[s].mc.histogram,
                               RfHistogram(nominalSamplesMcContent[s], Distances(parameterSetsList), responseFunctionsContent[s],
                                           old(sampleSet.fitSampleList[s].mc.histogram.NbBins()), sqrt),
                               iThread, nbThreads)
    {
      var samples := sampleSet.fitSampleList;
      var hs := ApplyResponseFunctionsOn(McHistograms(samples), nominalSamplesMcContent, responseFunctionsContent,
                                         parameterSetsList, iThread, nbThreads, sqrt);
      sampleSet.fitSampleList := WithMcHistograms(samples, hs);
    }

    /** reweightSampleEvents(): workers 0 .. n-1 one after the other; every
        MC event is reweighted exactly once. */
    method ReweightAllWorkers(reweight: Reweight)
      requires nbThreads >= 1 && DistinctMcEvents(sampleSet.fitSampleList)
      modifies McEvents(sampleSet.fitSampleList)
      ensures forall s, i :: 0 <= s < |sampleSet.fitSampleList| && 0 <= i < |sampleSet.fitSampleList[s].mc.eventList| ==>
                var e := sampleSet.fitSampleList[s].mc.eventList[i];
                e.State() == old(e.State()).(eventWeight := reweight(old(e.State())))
    {
      var samples := sampleSet.fitSampleList;
      var t := 0;
      while t < nbThreads
        invariant 0 <= t <= nbThreads
        invariant forall s, i :: 0 <= s < |samples| && 0 <= i < |samples[s].mc.eventList| ==>
                    var e := samples[s].mc.eventList[i];
                    e.State() == if i % nbThreads < t then old(e.State()).(eventWeight := reweight(old(e.State())))
                                 else old(e.State())
      {
        ReweightSampleEvents(t, reweight);
        forall s, i | 0 <= s < |samples| && 0 <= i < |samples[s].mc.eventList|
          ensures OnStride(StrideStart(t), StrideStep(t, nbThreads), i) <==> i % nbThreads == t
        {
          StrideMatchesOwner(t, nbThreads, i);
        }
        t := t + 1;
      }
    }

    /** applyResponseFunctions(): workers 0 .. n-1 one after the other;
        every MC histogram becomes the rebuilt one. */
    method ApplyAllWorkers(sqrt: real -> real)
      requires nbThreads >= 1
      requires RfReady(McHistograms(sampleSet.fitSampleList), nominalSamplesMcContent, responseFunctionsContent,
                       |Distances(parameterSetsList)|)
      modifies sampleSet`fitSampleList
      ensures |sampleSet.fitSampleList| == |old(sampleSet.fitSampleList)|
      ensures forall s :: 0 <= s < |sampleSet.fitSampleList| ==>
                var before := old(sampleSet.fitSampleList[s]);
                sampleSet.fitSampleList[s]
                == before.(mc := before.mc.(histogram := RfHistogram(nominalSamplesMcContent[s], Distances(parameterSetsList),
                                                                     responseFunctionsContent[s],
                                                                     before.mc.histogram.NbBins(), sqrt)))
    {
      ghost var samples0 := sampleSet.fitSampleList;
      var t := 0;
      while t < nbThreads
        invariant 0 <= t <= nbThreads
        invariant |sampleSet.fitSampleList| == |samples0|
        invariant RfReady(McHistograms(sampleSet.fitSampleList), nominalSamplesMcContent, responseFunctionsContent,
                          |Distances(parameterSetsList)|)
        invariant forall s :: 0 <= s < |samples0| ==>
                    var h := sampleSet.fitSampleList[s].mc.histogram;
                    && sampleSet.fitSampleList[s] == samples0[s].(mc := samples0[s].mc.(histogram := h))
                    && RebuiltUpTo(samples0[s].mc.histogram, h,
                                   RfHistogram(nominalSamplesMcContent[s], Distances(parameterSetsList), responseFunctionsContent[s],
                                               samples0[s].mc.histogram.NbBins(), sqrt), t, nbThreads)
      {
        ghost var before := sampleSet.fitSampleList;
        ApplyResponseFunctions(t, sqrt);
        forall s | 0 <= s < |samples0|
          ensures RebuiltUpTo(samples0[s].mc.histogram, sampleSet.fitSampleList[s].mc.histogram,
                              RfHistogram(nominalSamplesMcContent[s], Distances(parameterSetsList), responseFunctionsContent[s],
                                          samples0[s].mc.histogram.NbBins(), sqrt), t + 1, nbThreads)
        {
          RebuiltNext(samples0[s].mc.histogram, before[s].mc.histogram, sampleSet.fitSampleList[s].mc.histogram,
                      RfHistogram(nominalSamplesMcContent[s], Distances(parameterSetsList), responseFunctionsContent[s],
                                  samples0[s].mc.histogram.NbBins(), sqrt), t, nbThreads);
        }
        t := t + 1;
      }
      forall s | 0 <= s < |samples0|
        ensures sampleSet.fitSampleList[s].mc.histogram
                == RfHistogram(nominalSamplesMcContent[s], Distances(parameterSetsList), responseFunctionsContent[s],
                               samples0[s].mc.histogram.NbBins(), sqrt)
      {
        RebuiltAll(samples0[s].mc.histogram, sampleSet.fitSampleList[s].mc.histogram,
                   RfHistogram(nominalSamplesMcContent[s], Distances(parameterSetsList), responseFunctionsContent[s],
                               samples0[s].mc.histogram.NbBins(), sqrt), nbThreads);
      }
    }

    /** refillSampleHistograms(): every sample's MC and data histograms are
        refilled from the current states of their events; the event lists
        and everything else are kept. */
    method RefillSampleHistograms(refill: Refill)
      modifies sampleSet`fitSampleList
      ensures |sampleSet.fitSampleList| == |old(sampleSet.fitSampleList)|
      ensures forall s :: 0 <= s < |sampleSet.fitSampleList| ==>
                sampleSet.fitSampleList[s] == Refilled(old(sampleSet.fitSampleList[s]), refill)
    {
      var samples := sampleSet.fitSampleList;
      var refilled := [];
      var i := 0;
      while i < |samples|
        invariant 0 <= i <= |samples| && |refilled| == i
        invariant forall s :: 0 <= s < i ==> refilled[s] == Refilled(samples[s], refill)
      {
        refilled := refilled + [Refilled(samples[i], refill)];
        i := i + 1;
      }
      sampleSet.fitSampleList := refilled;
    }

    /** propagateParametersOnSamples: without response functions (or with
        them disabled) every MC event is reweighted exactly once and then
        every histogram is refilled from the reweighted events; with them
        every MC histogram becomes the rebuilt one and no event changes. */
    method PropagateParametersOnSamples(reweight: Reweight, refill: Refill, sqrt: real -> real)
      requires nbThreads >= 1 && DistinctMcEvents(sampleSet.fitSampleList)
      requires UsesResponseFunctions() ==>
                 RfReady(McHistograms(sampleSet.fitSampleList), nominalSamplesMcContent, responseFunctionsContent,
                         |Distances(parameterSetsList)|)
      modifies McEvents(sampleSet.fitSampleList), sampleSet`fitSampleList
      ensures !UsesResponseFunctions() ==>
                && |sampleSet.fitSampleList| == |old(sampleSet.fitSampleList)|
                && (forall s :: 0 <= s < |sampleSet.fitSampleList| ==>
                      sampleSet.fitSampleList[s] == Refilled(old(sampleSet.fitSampleList[s]), refill))
                && forall s, i :: 0 <= s < |sampleSet.fitSampleList| && 0 <= i < |sampleSet.fitSampleList[s].mc.eventList| ==>
                     var e := sampleSet.fitSampleList[s].mc.eventList[i];
                     e.State() == old(e.State()).(eventWeight := reweight(old(e.State())))
      ensures UsesResponseFunctions() ==>
                && |sampleSet.fitSampleList| == |old(sampleSet.fitSampleList)|
                && (forall s :: 0 <= s < |sampleSet.fitSampleList| ==>
                      var before := old(sampleSet.fitSampleList[s]);
                      sampleSet.fitSampleList[s]
                      == before.(mc := before.mc.(histogram := RfHistogram(nominalSamplesMcContent[s], Distances(parameterSetsList),
                                                                           responseFunctionsContent[s],
                                                                           before.mc.histogram.NbBins(), sqrt))))
                && forall s, i :: 0 <= s < |sampleSet.fitSampleList| && 0 <= i < |sampleSet.fitSampleList[s].mc.eventList| ==>
                     var e := sampleSet.fitSampleList[s].mc.eventList[i];
                     e.State() == old(e.State())
    {
      if !UsesResponseFunctions() {
        ReweightAllWorkers(reweight);
        RefillSampleHistograms(refill);
      } else {
        ApplyAllWorkers(sqrt);
      }
    }
  }
}
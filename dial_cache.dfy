/** The dial cache the propagator builds for each Monte-Carlo event: the
    parameter sets and their dials as values, the candidate dial sets of a
    data set (initialisation of `dialSetPtrMap` in fillEventDialCaches),
    the dials an event is assigned (the first dial of each candidate dial
    set whose condition bin holds the event), and the size every event's
    dial list is given (initializeCaches). */
module DialCache {
  import opened Outcomes
  import opened PhysicsEvents

  /** An apply-condition formula, evaluated on the event's leaves. */
  type Formula = Leaves -> real

  /** A dial's condition bin: the variables it constrains and, per
      variable index, whether a value lies between that variable's
      edges. */
  datatype DataBin = DataBin(variableNameList: seq<string>, isBetweenEdges: (nat, real) -> bool)

  datatype Dial = Dial(applyConditionBin: DataBin)

  /** A dial set: its optional apply-condition formula and its dials. */
  datatype DialSet = DialSet(applyConditionFormula: Option<Formula>, dialList: seq<Dial>)

  /** A fit parameter: enabled flag, its distance from the nominal value in
      units of its standard deviation, and its dial set per data-set
      name. */
  datatype FitParameter = FitParameter(isEnabled: bool, distanceFromNominal: real,
                                       dialSets: map<string, DialSet>)

  datatype FitParameterSet = FitParameterSet(isEnabled: bool, useOnlyOneParameterPerEvent: bool,
                                             parameterList: seq<FitParameter>)

  /** findDialSet: the dial set of the data set named `dataSet`, or null. */
  function FindDialSet(p: FitParameter, dataSet: string): (r: Option<DialSet>)
    ensures r.Some? <==> dataSet in p.dialSets
  {
    if dataSet in p.dialSets then Some(p.dialSets[dataSet]) else None
  }

  // ---------------------------------------------------------------------
  // Pre-size (initializeCaches).

  /** The dial slots one parameter set needs: one in one-parameter-per-event
      mode, one per parameter otherwise. */
  function Slots(ps: FitParameterSet): nat
  {
    if ps.useOnlyOneParameterPerEvent then 1 else |ps.parameterList|
  }

  /** The size initializeCaches gives every event's dial list: the sum of
      Slots over all parameter sets, enabled or not. */
  function PreSize(parSets: seq<FitParameterSet>): nat
  {
    if parSets == [] then 0
    else PreSize(parSets[..|parSets| - 1]) + Slots(parSets[|parSets| - 1])
  }

  /** vector::resize: the first `n` entries are kept, missing ones are
      null. */
  function Resized(list: seq<Option<DialRef>>, n: nat): (r: seq<Option<DialRef>>)
    ensures |r| == n
    ensures forall i :: 0 <= i < n ==> r[i] == if i < |list| then list[i] else None
  {
    if n <= |list| then list[..n] else list + seq(n - |list|, _ => None)
  }

  // ---------------------------------------------------------------------
  // Candidate dial sets of a data set.

  /** One entry of `dialSetPtrMap[&parSet]`: the dial set of parameter
      `parameter`. */
  datatype Candidate = Candidate(parameter: nat, dialSet: DialSet)

  /** One key of `dialSetPtrMap` with its vector of dial sets.  The map is
      keyed by the parameter set's address; the parameter sets live in one
      vector, so its order is the parameter-set order. */
  datatype Group = Group(parameterSet: nat, useOnlyOneParameterPerEvent: bool, candidates: seq<Candidate>)

  /** A parameter is a candidate for `dataSet`: enabled, with a dial set
      for that data set holding at least one dial. */
  predicate IsCandidate(p: FitParameter, dataSet: string)
  {
    p.isEnabled && dataSet in p.dialSets && |p.dialSets[dataSet].dialList| > 0
  }

  /** The candidates among the first `k` parameters, in parameter order. */
  function ParameterCandidates(pars: seq<FitParameter>, dataSet: string, k: nat): (r: seq<Candidate>)
    requires k <= |pars|
    ensures |r| <= k
    ensures forall x :: 0 <= x < |r| ==>
              r[x].parameter < k && IsCandidate(pars[r[x].parameter], dataSet)
              && r[x].dialSet == pars[r[x].parameter].dialSets[dataSet]
    ensures forall x, y :: 0 <= x < y < |r| ==> r[x].parameter < r[y].parameter
  {
    if k == 0 then []
    else
      var prev := ParameterCandidates(pars, dataSet, k - 1);
      var p := pars[k - 1];
      if IsCandidate(p, dataSet) then prev + [Candidate(k - 1, p.dialSets[dataSet])] else prev
  }

  /** Every candidate parameter below `k` is listed. */
  lemma {:induction false} ParameterCandidatesComplete(pars: seq<FitParameter>, dataSet: string, k: nat, j: nat)
    requires j < k <= |pars| && IsCandidate(pars[j], dataSet)
    ensures exists x :: 0 <= x < |ParameterCandidates(pars, dataSet, k)|
                        && ParameterCandidates(pars, dataSet, k)[x].parameter == j
  {
    var r := ParameterCandidates(pars, dataSet, k);
    if j == k - 1 {
      assert r[|r| - 1].parameter == j;
    } else {
      ParameterCandidatesComplete(pars, dataSet, k - 1, j);
      var prev := ParameterCandidates(pars, dataSet, k - 1);
      var x :| 0 <= x < |prev| && prev[x].parameter == j;
      assert r[x] == prev[x];
    }
  }

  /** The groups of the first `k` parameter sets: one per enabled parameter
      set with at least one candidate, in parameter-set order. */
  function CandidateGroupsUpTo(parSets: seq<FitParameterSet>, dataSet: string, k: nat): (r: seq<Group>)
    requires k <= |parSets|
    ensures |r| <= k
    ensures forall g :: 0 <= g < |r| ==>
              var i := r[g].parameterSet;
              && i < k && parSets[i].isEnabled && |r[g].candidates| > 0
              && r[g].useOnlyOneParameterPerEvent == parSets[i].useOnlyOneParameterPerEvent
              && r[g].candidates == ParameterCandidates(parSets[i].parameterList, dataSet, |parSets[i].parameterList|)
    ensures forall g, h :: 0 <= g < h < |r| ==> r[g].parameterSet < r[h].parameterSet
  {
    if k == 0 then []
    else
      var prev := CandidateGroupsUpTo(parSets, dataSet, k - 1);
      var ps := parSets[k - 1];
      var cands := ParameterCandidates(ps.parameterList, dataSet, |ps.parameterList|);
      if ps.isEnabled && |cands| > 0 then prev + [Group(k - 1, ps.useOnlyOneParameterPerEvent, cands)]
      else prev
  }

  function CandidateGroups(parSets: seq<FitParameterSet>, dataSet: string): seq<Group>
  {
    CandidateGroupsUpTo(parSets, dataSet, |parSets|)
  }

  // ---------------------------------------------------------------------
  // Assignment of dials to one event.

  /** The condition bin holds the event from variable `k` on: each
      variable's value (getVarAsDouble, which throws when the leaf is
      missing) lies between its edges; the check stops at the first
      variable that does not. */
  function InBinFrom(bin: DataBin, leaves: Leaves, k: nat): Result<bool, LeafError>
    decreases |bin.variableNameList| - k
  {
    if |bin.variableNameList| <= k then Success(true)
    else
      var value :- VarAsDouble(leaves, bin.variableNameList[k], 0);
      if !bin.isBetweenEdges(k, value) then Success(false)
      else InBinFrom(bin, leaves, k + 1)
  }

  function InBin(bin: DataBin, leaves: Leaves): Result<bool, LeafError>
  {
    InBinFrom(bin, leaves, 0)
  }

  /** The first dial from `j` on whose condition bin holds the event. */
  function FirstDialFrom(dials: seq<Dial>, leaves: Leaves, j: nat): Result<Option<nat>, LeafError>
    decreases |dials| - j
  {
    if |dials| <= j then Success(None)
    else
      var inBin :- InBin(dials[j].applyConditionBin, leaves);
      if inBin then Success(Some(j)) else FirstDialFrom(dials, leaves, j + 1)
  }

  /** The dial set applies to the event: no formula, or a formula that does
      not evaluate to 0. */
  predicate ConditionHolds(ds: DialSet, leaves: Leaves)
  {
    ds.applyConditionFormula.None? || ds.applyConditionFormula.value(leaves) != 0.0
  }

  /** The dial a candidate dial set assigns to the event, if any. */
  function MatchOf(c: Candidate, leaves: Leaves): Result<Option<nat>, LeafError>
  {
    if !ConditionHolds(c.dialSet, leaves) then Success(None)
    else FirstDialFrom(c.dialSet.dialList, leaves, 0)
  }

  /** The dials a group assigns from candidate `k` on.  In
      one-parameter-per-event mode the first match ends the group. */
  function CandidatesFrom(grp: Group, dataSet: string, leaves: Leaves, k: nat): Result<seq<DialRef>, LeafError>
    decreases |grp.candidates| - k
  {
    if |grp.candidates| <= k then Success([])
    else
      var c := grp.candidates[k];
      var m :- MatchOf(c, leaves);
      if m.None? then CandidatesFrom(grp, dataSet, leaves, k + 1)
      else
        var ref := DialRef(grp.parameterSet, c.parameter, dataSet, m.value);
        if grp.useOnlyOneParameterPerEvent then Success([ref])
        else
          var rest :- CandidatesFrom(grp, dataSet, leaves, k + 1);
          Success([ref] + rest)
  }

  /** The dials the groups from `g` on assign, group after group. */
  function GroupsFrom(groups: seq<Group>, dataSet: string, leaves: Leaves, g: nat): Result<seq<DialRef>, LeafError>
    decreases |groups| - g
  {
    if |groups| <= g then Success([])
    else
      var here :- CandidatesFrom(groups[g], dataSet, leaves, 0);
      var rest :- GroupsFrom(groups, dataSet, leaves, g + 1);
      Success(here + rest)
  }

  /** The dial pointers written for one event, at offsets 0, 1, ... of its
      dial list. */
  function AssignEvent(groups: seq<Group>, dataSet: string, leaves: Leaves): Result<seq<DialRef>, LeafError>
  {
    GroupsFrom(groups, dataSet, leaves, 0)
  }

  /** The dial list once `refs` are written at offsets 0 .. |refs|-1. */
  function Written(list: seq<Option<DialRef>>, refs: seq<DialRef>): (r: seq<Option<DialRef>>)
    requires |refs| <= |list|
    ensures |r| == |list|
    ensures forall i :: 0 <= i < |refs| ==> r[i] == Some(refs[i])
    ensures forall i :: |refs| <= i < |list| ==> r[i] == list[i]
  {
    seq(|list|, i requires 0 <= i < |list| => if i < |refs| then Some(refs[i]) else list[i])
  }

  /** A result with `prefix` put in front of the pointers it carries;
      a failure stays a failure. */
  function Prepended(prefix: seq<DialRef>, r: Result<seq<DialRef>, LeafError>): (p: Result<seq<DialRef>, LeafError>)
    ensures p.Success? <==> r.Success?
    ensures r.Success? ==> p.value == prefix + r.value
    ensures r.Failure? ==> p == r
  {
    if r.Success? then Success(prefix + r.value) else r
  }

  /** Putting two prefixes in front, one after the other, puts their
      concatenation in front. */
  lemma PrependedTwice(a: seq<DialRef>, b: seq<DialRef>, r: Result<seq<DialRef>, LeafError>)
    ensures Prepended(a, Prepended(b, r)) == Prepended(a + b, r)
  {
    if r.Success? {
      assert a + (b + r.value) == (a + b) + r.value;
    }
  }

  /** Nothing put in front changes nothing. */
  lemma PrependedNothing(r: Result<seq<DialRef>, LeafError>)
    ensures Prepended([], r) == r
  {
    if r.Success? {
      assert [] + r.value == r.value;
    }
  }

  /** Writing one more pointer at the next offset. */
  lemma WrittenNext(list: seq<Option<DialRef>>, refs: seq<DialRef>, ref: DialRef)
    requires |refs| < |list|
    ensures Written(list, refs)[|refs| := Some(ref)] == Written(list, refs + [ref])
  {
  }

  // ---------------------------------------------------------------------
  // Properties of the assignment.

  /** The slots a group can fill: one in one-parameter-per-event mode, one
      per candidate otherwise. */
  function GroupSlots(grp: Group): nat
  {
    if grp.useOnlyOneParameterPerEvent then 1 else |grp.candidates|
  }

  function GroupsSlots(groups: seq<Group>, g: nat): nat
    decreases |groups| - g
  {
    if |groups| <= g then 0 else GroupSlots(groups[g]) + GroupsSlots(groups, g + 1)
  }

  /** The first dial found is in its bin and every dial before it is not. */
  lemma {:induction false} FirstDialFromMeaning(dials: seq<Dial>, leaves: Leaves, j: nat)
    ensures var r := FirstDialFrom(dials, leaves, j);
            && (r.Success? && r.value.Some? ==>
                  j <= r.value.value < |dials| && InBin(dials[r.value.value].applyConditionBin, leaves) == Success(true)
                  && forall x :: j <= x < r.value.value ==> InBin(dials[x].applyConditionBin, leaves) == Success(false))
            && (r == Success(None) ==>
                  forall x :: j <= x < |dials| ==> InBin(dials[x].applyConditionBin, leaves) == Success(false))
    decreases |dials| - j
  {
    if j < |dials| {
      FirstDialFromMeaning(dials, leaves, j + 1);
    }
  }

  /** Candidate parameters strictly increase along the group. */
  predicate Ordered(grp: Group)
  {
    forall x, y :: 0 <= x < y < |grp.candidates| ==> grp.candidates[x].parameter < grp.candidates[y].parameter
  }

  /** A group fills at most its slots from candidate `k` on: at most one in
      one-parameter-per-event mode, at most one per remaining candidate
      otherwise. */
  lemma {:induction false} CandidatesFromSize(grp: Group, dataSet: string, leaves: Leaves, k: nat)
    requires k <= |grp.candidates|
    ensures var r := CandidatesFrom(grp, dataSet, leaves, k);
            r.Success? ==> |r.value| <= (if grp.useOnlyOneParameterPerEvent then 1 else |grp.candidates| - k)
    decreases |grp.candidates| - k
  {
    if k < |grp.candidates| {
      CandidatesFromSize(grp, dataSet, leaves, k + 1);
    }
  }

  /** `ref` points at the dial that some candidate at or after `k` of the
      group matched, in the group's parameter set and the event's data
      set. */
  predicate FromCandidate(grp: Group, dataSet: string, leaves: Leaves, k: nat, ref: DialRef)
  {
    && ref.parameterSet == grp.parameterSet && ref.dataSet == dataSet
    && exists c :: k <= c < |grp.candidates| && grp.candidates[c].parameter == ref.parameter
                   && MatchOf(grp.candidates[c], leaves) == Success(Some(ref.dial))
  }

  /** Every pointer a group assigns from candidate `k` on comes from a
      candidate at or after `k` whose dial set matched with that dial. */
  lemma {:induction false} CandidatesFromSources(grp: Group, dataSet: string, leaves: Leaves, k: nat)
    ensures CandidatesFrom(grp, dataSet, leaves, k).Success? ==>
              forall ref :: ref in CandidatesFrom(grp, dataSet, leaves, k).value ==> FromCandidate(grp, dataSet, leaves, k, ref)
    decreases |grp.candidates| - k
  {
    if k < |grp.candidates| {
      CandidatesFromSources(grp, dataSet, leaves, k + 1);
      var rest := CandidatesFrom(grp, dataSet, leaves, k + 1);
      var c := grp.candidates[k];
      var m := MatchOf(c, leaves);
      var r := CandidatesFrom(grp, dataSet, leaves, k);
      if m.Success? && rest.Success? {
        forall ref | ref in rest.value ensures FromCandidate(grp, dataSet, leaves, k, ref) {
          var c' :| k + 1 <= c' < |grp.candidates| && grp.candidates[c'].parameter == ref.parameter
                    && MatchOf(grp.candidates[c'], leaves) == Success(Some(ref.dial));
        }
      }
      if m.Success? && m.value.Some? {
        var ref := DialRef(grp.parameterSet, c.parameter, dataSet, m.value.value);
        assert MatchOf(grp.candidates[k], leaves) == Success(Some(ref.dial));
        assert FromCandidate(grp, dataSet, leaves, k, ref);
      }
    }
  }

  /** The parameters along a list of pointers strictly increase. */
  predicate Increasing(refs: seq<DialRef>)
  {
    forall x, y :: 0 <= x < y < |refs| ==> refs[x].parameter < refs[y].parameter
  }

  /** The parameters of the pointers a group assigns strictly increase, so
      no dial set gives two dials to one event. */
  lemma {:induction false} CandidatesFromOrdered(grp: Group, dataSet: string, leaves: Leaves, k: nat)
    requires Ordered(grp)
    ensures CandidatesFrom(grp, dataSet, leaves, k).Success? ==> Increasing(CandidatesFrom(grp, dataSet, leaves, k).value)
    decreases |grp.candidates| - k
  {
    if k < |grp.candidates| {
      CandidatesFromOrdered(grp, dataSet, leaves, k + 1);
      CandidatesFromSources(grp, dataSet, leaves, k + 1);
      var rest := CandidatesFrom(grp, dataSet, leaves, k + 1);
      var m := MatchOf(grp.candidates[k], leaves);
      if m.Success? && m.value.Some? && !grp.useOnlyOneParameterPerEvent && rest.Success? {
        var ref := DialRef(grp.parameterSet, grp.candidates[k].parameter, dataSet, m.value.value);
        var r := [ref] + rest.value;
        assert CandidatesFrom(grp, dataSet, leaves, k) == Success(r);
        forall x | 0 <= x < |rest.value| ensures ref.parameter < rest.value[x].parameter {
          var other := rest.value[x];
          assert other in rest.value;
          var c' :| k + 1 <= c' < |grp.candidates| && grp.candidates[c'].parameter == other.parameter
                    && MatchOf(grp.candidates[c'], leaves) == Success(Some(other.dial));
        }
        forall x, y | 0 <= x < y < |r| ensures r[x].parameter < r[y].parameter {
          assert r[y] == rest.value[y - 1];
          if x > 0 {
            assert r[x] == rest.value[x - 1];
          }
        }
      }
    }
  }

  /** Outside one-parameter-per-event mode, every candidate from `k` on
      whose dial set matched gives its dial. */
  lemma {:induction false} CandidatesFromComplete(grp: Group, dataSet: string, leaves: Leaves, k: nat)
    requires k <= |grp.candidates| && !grp.useOnlyOneParameterPerEvent
    ensures var r := CandidatesFrom(grp, dataSet, leaves, k);
            r.Success? ==>
              forall c, d :: k <= c < |grp.candidates| && MatchOf(grp.candidates[c], leaves) == Success(Some(d)) ==>
                DialRef(grp.parameterSet, grp.candidates[c].parameter, dataSet, d) in r.value
    decreases |grp.candidates| - k
  {
    if k < |grp.candidates| {
      CandidatesFromComplete(grp, dataSet, leaves, k + 1);
      var m := MatchOf(grp.candidates[k], leaves);
      var r := CandidatesFrom(grp, dataSet, leaves, k);
      var rest := CandidatesFrom(grp, dataSet, leaves, k + 1);
      if m.Success? && m.value.Some? && rest.Success? {
        assert r.value == [DialRef(grp.parameterSet, grp.candidates[k].parameter, dataSet, m.value.value)] + rest.value;
      }
    }
  }

  /** In one-parameter-per-event mode a group assigns nothing exactly when
      none of its candidates from `k` on matched, and otherwise the dial of
      the first candidate that did. */
  lemma {:induction false} CandidatesFromOnlyOne(grp: Group, dataSet: string, leaves: Leaves, k: nat)
    requires k <= |grp.candidates| && grp.useOnlyOneParameterPerEvent
    ensures var r := CandidatesFrom(grp, dataSet, leaves, k);
            r.Success? ==>
              && (r.value == [] <==> forall c :: k <= c < |grp.candidates| ==> MatchOf(grp.candidates[c], leaves) == Success(None))
              && (r.value != [] ==>
                    exists c :: k <= c < |grp.candidates|
                                && MatchOf(grp.candidates[c], leaves).Success? && MatchOf(grp.candidates[c], leaves).value.Some?
                                && r.value == [DialRef(grp.parameterSet, grp.candidates[c].parameter, dataSet,
                                                       MatchOf(grp.candidates[c], leaves).value.value)]
                                && forall c' :: k <= c' < c ==> MatchOf(grp.candidates[c'], leaves) == Success(None))
    decreases |grp.candidates| - k
  {
    if k < |grp.candidates| {
      CandidatesFromOnlyOne(grp, dataSet, leaves, k + 1);
    }
  }

  /** What the groups from `g` on assign fits in the slots they count. */
  lemma {:induction false} GroupsFromFits(groups: seq<Group>, dataSet: string, leaves: Leaves, g: nat)
    ensures var r := GroupsFrom(groups, dataSet, leaves, g);
            r.Success? ==> |r.value| <= GroupsSlots(groups, g)
    decreases |groups| - g
  {
    if g < |groups| {
      CandidatesFromSize(groups[g], dataSet, leaves, 0);
      GroupsFromFits(groups, dataSet, leaves, g + 1);
    }
  }

  /** The candidate groups of any data set need no more slots than the
      pre-size counts: the groups are a sub-list of the parameter sets and
      each needs at most the parameter set's slots. */
  lemma {:induction false} CandidateSlotsWithinPreSize(parSets: seq<FitParameterSet>, dataSet: string, k: nat)
    requires k <= |parSets|
    ensures GroupsSlots(CandidateGroupsUpTo(parSets, dataSet, k), 0) <= PreSize(parSets[..k])
  {
    if k > 0 {
      CandidateSlotsWithinPreSize(parSets, dataSet, k - 1);
      var prev := CandidateGroupsUpTo(parSets, dataSet, k - 1);
      var ps := parSets[k - 1];
      assert parSets[..k][..k - 1] == parSets[..k - 1];
      var cands := ParameterCandidates(ps.parameterList, dataSet, |ps.parameterList|);
      if ps.isEnabled && |cands| > 0 {
        GroupsSlotsAppend(prev, Group(k - 1, ps.useOnlyOneParameterPerEvent, cands), 0);
      }
    }
  }

  /** Appending a group adds its slots. */
  lemma {:induction false} GroupsSlotsAppend(groups: seq<Group>, grp: Group, g: nat)
    requires g <= |groups|
    ensures GroupsSlots(groups + [grp], g) == GroupsSlots(groups, g) + GroupSlots(grp)
    decreases |groups| - g
  {
    if g < |groups| {
      GroupsSlotsAppend(groups, grp, g + 1);
    }
  }

  /** The pointers an event is assigned always fit in a dial list sized by
      initializeCaches, for any data set. */
  lemma AssignmentFitsPreSize(parSets: seq<FitParameterSet>, dataSet: string, leaves: Leaves)
    ensures var r := AssignEvent(CandidateGroups(parSets, dataSet), dataSet, leaves);
            r.Success? ==> |r.value| <= PreSize(parSets)
  {
    var groups := CandidateGroups(parSets, dataSet);
    GroupsFromFits(groups, dataSet, leaves, 0);
    CandidateSlotsWithinPreSize(parSets, dataSet, |parSets|);
    assert parSets[..|parSets|] == parSets;
  }

  /** A dial set whose formula evaluates to 0 for the event assigns nothing,
      whatever its dials. */
  lemma FormulaZeroSkips(c: Candidate, leaves: Leaves)
    requires c.dialSet.applyConditionFormula.Some? && c.dialSet.applyConditionFormula.value(leaves) == 0.0
    ensures MatchOf(c, leaves) == Success(None)
  {
  }
}

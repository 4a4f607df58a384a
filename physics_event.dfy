/** PhysicsEvent: one event read from a tree, carrying its leaf values, the
    index of its data set and entry, three weights (tree, nominal, event)
    and the list of dial pointers the propagator fills.  The leaf lookup is
    specified by a pure function (LeafLookup) that the search method is
    proved against. */
module PhysicsEvents {
  import opened Outcomes

  /** The exceptions the leaf lookup throws: the name list pointer is null,
      the name list is shorter than the leaf list (`vector::at` throws
      out_of_range), the name is absent, or the leaf has no value at the
      requested array index. */
  datatype LeafError = NameListNotSet | NameListTooShort | LeafNotFound | ArrayIndexOutOfRange

  /** A pointer to a dial: the dial `dial` of the dial set that parameter
      `parameter` of parameter set `parameterSet` holds for data set
      `dataSet`. */
  datatype DialRef = DialRef(parameterSet: nat, parameter: nat, dataSet: string, dial: nat)

  /** What a formula or a leaf lookup can see of an event: the shared leaf
      name list (None for a null pointer) and, per hooked leaf, its
      values. */
  datatype Leaves = Leaves(names: Option<seq<string>>, content: seq<seq<real>>)

  /** All the fields of an event, as a value. */
  datatype EventState = EventState(leaves: Leaves, dataSetIndex: int, entryIndex: int,
                                   treeWeight: real, nominalWeight: real, eventWeight: real,
                                   rawDialPtrList: seq<Option<DialRef>>)

  // ---------------------------------------------------------------------
  // The leaf lookup (findVarIndex, getVarAsDouble).

  function Min(a: int, b: int): int { if a <= b then a else b }

  /** Some name below `bound` equals `name`. */
  predicate MatchBelow(names: seq<string>, bound: int, name: string)
    requires bound <= |names|
  {
    exists i :: 0 <= i < bound && names[i] == name
  }

  /** The search as the loop runs it from leaf `i`: Success(-1) marks "ran
      off the leaf list without a match". */
  function FindFrom(names: seq<string>, leafCount: nat, name: string, i: nat): Result<int, LeafError>
    decreases leafCount - i
  {
    if leafCount <= i then Success(-1)
    else if |names| <= i then Failure(NameListTooShort)
    else if names[i] == name then Success(i)
    else FindFrom(names, leafCount, name, i + 1)
  }

  /** What FindFrom returns, from a start `i` with no match below it. */
  lemma {:induction false} FindFromMeaning(names: seq<string>, leafCount: nat, name: string, i: nat)
    requires i <= leafCount && i <= |names| && !MatchBelow(names, i, name)
    ensures var m := Min(leafCount, |names|);
            var r := FindFrom(names, leafCount, name, i);
            && (MatchBelow(names, m, name) ==>
                  r.Success? && 0 <= r.value < m && names[r.value] == name
                  && !MatchBelow(names, r.value, name))
            && (!MatchBelow(names, m, name) && leafCount <= |names| ==> r == Success(-1))
            && (!MatchBelow(names, m, name) && |names| < leafCount ==> r == Failure(NameListTooShort))
    decreases leafCount - i
  {
    var m := Min(leafCount, |names|);
    if i < leafCount && i < |names| {
      if names[i] == name {
        assert MatchBelow(names, m, name);
      } else {
        FindFromMeaning(names, leafCount, name, i + 1);
      }
    }
  }

  /** findVarIndex: the first leaf, among the hooked ones, whose shared name
      is `name`; -1 when there is none, or LeafNotFound when asked to
      throw.  It throws when the name list is null, and when the name list
      runs out before the leaf list and no earlier name matched. */
  function LeafLookup(names: Option<seq<string>>, leafCount: nat, name: string, throwIfNotFound: bool)
    : (r: Result<int, LeafError>)
    ensures names.None? ==> r == Failure(NameListNotSet)
    ensures names.Some? ==>
              var n := names.value;
              var m := Min(leafCount, |n|);
              && (MatchBelow(n, m, name) <==> r.Success? && r.value >= 0)
              && (r.Success? && r.value >= 0 ==>
                    r.value < m && n[r.value] == name && !MatchBelow(n, r.value, name))
              && (r == Success(-1) <==> !MatchBelow(n, m, name) && leafCount <= |n| && !throwIfNotFound)
              && (r == Failure(LeafNotFound) <==> !MatchBelow(n, m, name) && leafCount <= |n| && throwIfNotFound)
              && (r == Failure(NameListTooShort) <==> !MatchBelow(n, m, name) && |n| < leafCount)
  {
    if names.None? then Failure(NameListNotSet)
    else
      FindFromMeaning(names.value, leafCount, name, 0);
      var found := FindFrom(names.value, leafCount, name, 0);
      if found == Success(-1) && throwIfNotFound then Failure(LeafNotFound) else found
  }

  /** getVarAsDouble: the value at `arrayIndex` of the leaf that
      findVarIndex finds, asked to throw. */
  function VarAsDouble(leaves: Leaves, name: string, arrayIndex: nat): (r: Result<real, LeafError>)
    ensures r.Success? ==>
              exists i :: 0 <= i < |leaves.content| && LeafLookup(leaves.names, |leaves.content|, name, true) == Success(i)
                          && arrayIndex < |leaves.content[i]| && r.value == leaves.content[i][arrayIndex]
    ensures r.Success? ==>
              leaves.names.Some? && MatchBelow(leaves.names.value, Min(|leaves.content|, |leaves.names.value|), name)
  {
    var index :- LeafLookup(leaves.names, |leaves.content|, name, true);
    if arrayIndex < |leaves.content[index]| then Success(leaves.content[index][arrayIndex])
    else Failure(ArrayIndexOutOfRange)
  }

  /** The weight carriers after `reset`. */
  predicate WeightsReset(s: EventState)
  {
    s.treeWeight == 1.0 && s.nominalWeight == 1.0 && s.eventWeight == 1.0
  }

  // ---------------------------------------------------------------------
  // The event.

  class PhysicsEvent {
    var leafNames: Option<seq<string>>
    var leafContent: seq<seq<real>>
    var dataSetIndex: int
    var entryIndex: int
    var treeWeight: real
    var nominalWeight: real
    var eventWeight: real
    var rawDialPtrList: seq<Option<DialRef>>

    function State(): EventState
      reads this
    {
      EventState(Leaves(leafNames, leafContent), dataSetIndex, entryIndex,
                 treeWeight, nominalWeight, eventWeight, rawDialPtrList)
    }

    /** The leaves as formulas and lookups see them. */
    function GetLeaves(): (l: Leaves)
      reads this
      ensures l == State().leaves
    {
      Leaves(leafNames, leafContent)
    }

    /** The default constructor: an event in its reset state with no dial
        pointer.  The source leaves the entry index uninitialised, so
        nothing is promised about it. */
    constructor ()
      ensures leafNames == None && leafContent == [] && dataSetIndex == -1
      ensures WeightsReset(State()) && rawDialPtrList == []
    {
      leafNames := None;
      leafContent := [];
      dataSetIndex := -1;
      entryIndex := 0;
      treeWeight := 1.0;
      nominalWeight := 1.0;
      eventWeight := 1.0;
      rawDialPtrList := [];
    }

    /** reset: null name list, no leaf, data set -1, the three weights 1;
        the entry index and the dial pointers are kept. */
    method Reset()
      modifies this
      ensures State() == EventState(Leaves(None, []), -1, old(entryIndex), 1.0, 1.0, 1.0, old(rawDialPtrList))
      ensures WeightsReset(State())
    {
      leafNames := None;
      leafContent := [];
      dataSetIndex := -1;
      treeWeight := 1.0;
      nominalWeight := 1.0;
      eventWeight := 1.0;
    }

    method SetLeafNameList(names: Option<seq<string>>)
      modifies this
      ensures State() == old(State()).(leaves := Leaves(names, old(leafContent)))
    {
      leafNames := names;
    }

    method SetDataSetIndex(index: int)
      modifies this
      ensures State() == old(State()).(dataSetIndex := index)
    {
      dataSetIndex := index;
    }

    method SetEntryIndex(index: int)
      modifies this
      ensures State() == old(State()).(entryIndex := index)
    {
      entryIndex := index;
    }

    method SetTreeWeight(w: real)
      modifies this
      ensures State() == old(State()).(treeWeight := w)
    {
      treeWeight := w;
    }

    method SetNominalWeight(w: real)
      modifies this
      ensures State() == old(State()).(nominalWeight := w)
    {
      nominalWeight := w;
    }

    method SetEventWeight(w: real)
      modifies this
      ensures State() == old(State()).(eventWeight := w)
    {
      eventWeight := w;
    }

    /** addEventWeight: the event weight is multiplied by `w`, nothing else
        changes. */
    method AddEventWeight(w: real)
      modifies this
      ensures State() == old(State()).(eventWeight := old(eventWeight) * w)
    {
      eventWeight := eventWeight * w;
    }

    /** resetEventWeight: the event weight goes back to the nominal weight. */
    method ResetEventWeight()
      modifies this
      ensures State() == old(State()).(eventWeight := old(nominalWeight))
    {
      eventWeight := nominalWeight;
    }

    /** findVarIndex, as the source's loop over the hooked leaves. */
    method FindVarIndex(name: string, throwIfNotFound: bool) returns (r: Result<int, LeafError>)
      ensures r == LeafLookup(leafNames, |leafContent|, name, throwIfNotFound)
    {
      if leafNames.None? {
        return Failure(NameListNotSet);
      }
      var names := leafNames.value;
      var i := 0;
      while i < |leafContent|
        invariant 0 <= i <= |leafContent|
        invariant FindFrom(names, |leafContent|, name, i) == FindFrom(names, |leafContent|, name, 0)
      {
        if |names| <= i {
          return Failure(NameListTooShort);
        }
        if names[i] == name {
          return Success(i);
        }
        i := i + 1;
      }
      if throwIfNotFound {
        return Failure(LeafNotFound);
      }
      return Success(-1);
    }

    /** getVarAsDouble: findVarIndex asked to throw, then the leaf's value
        at `arrayIndex`. */
    method GetVarAsDouble(name: string, arrayIndex: nat) returns (r: Result<real, LeafError>)
      ensures r == VarAsDouble(GetLeaves(), name, arrayIndex)
    {
      var index :- FindVarIndex(name, true);
      if arrayIndex < |leafContent[index]| {
        return Success(leafContent[index][arrayIndex]);
      }
      return Failure(ArrayIndexOutOfRange);
    }

    /** The copy an assignment of a `std::vector<PhysicsEvent>` makes: a new
        event with every field equal. */
    method Copy() returns (e: PhysicsEvent)
      ensures fresh(e) && e.State() == State()
    {
      e := new PhysicsEvent();
      e.leafNames := leafNames;
      e.leafContent := leafContent;
      e.dataSetIndex := dataSetIndex;
      e.entryIndex := entryIndex;
      e.treeWeight := treeWeight;
      e.nominalWeight := nominalWeight;
      e.eventWeight := eventWeight;
      e.rawDialPtrList := rawDialPtrList;
    }
  }
}

/** The packed, index-addressed layout of Cache::Weight::CompactSpline,
    seen as a value.  The class in compact_spline.dfy keeps four arrays and
    two counters; `Layout` is the same data as sequences, and the functions
    here say what each operation does to it and what each accessor reads
    from it.  The lemmas are the round trips and frame properties of the
    packed layout. */
module SplineLayout {
  import opened Outcomes

  /** The runtime_error messages of the compact-spline cache. */
  datatype CacheError =
    | NegativeResultIndex        // "Negative result index"
    | ResultIndexOutOfBounds     // "Result index out of bounds"
    | NegativeParameterIndex     // "Negative parameter index"
    | ParameterIndexOutOfBounds  // "Parameter index out of bounds"
    | InvalidNumberOfPoints      // "Invalid number of spline points"
    | SplinesExhausted           // "Not enough space reserved for splines"
    | ControlIndices             // "Problem with control indices"
    | KnotSpaceExhausted         // "Not enough space reserved for spline knots"
    | InvalidSplineIndex         // "Spline index invalid"
    | InvalidKnotIndex           // "Knot index invalid"
    | InvalidControlPoint        // "Invalid control point being set"
    | ParameterOutOfBounds       // "Spine ... index out of bounds"
    | InvalidSpaceOption         // "Invalid space option for compact splines"

  /** The range of a C++ `short`, the element type of fSplineParameter. */
  const ShortMin: int := -32768
  const ShortMax: int := 32767

  /** Conversion of an `int` to a 16-bit two's-complement `short`. */
  function ToShort(x: int): (s: int)
    ensures ShortMin <= s <= ShortMax
    ensures (s - x) % 65536 == 0
    ensures ShortMin <= x <= ShortMax ==> s == x
  {
    (x - ShortMin) % 65536 + ShortMin
  }

  /** The two header values (lower bound, inverse step) stored before the
      control points of every spline. */
  const HeaderSize: nat := 2

  /** Fewest raw values AddSpline accepts: the header and two control points. */
  const MinSplineData: nat := 4

  /** The state of one compact-spline cache.  `weightsSize` and
      `parametersSize` are the sizes of the shared result and parameter
      arrays; `result`, `parameter`, `index` and `space` are the contents
      of fSplineResult, fSplineParameter, fSplineIndex and fSplineSpace. */
  datatype Layout = Layout(
    weightsSize: nat,
    parametersSize: nat,
    splinesReserved: nat,
    spaceReserved: nat,
    result: seq<int>,
    parameter: seq<int>,
    index: seq<int>,
    space: seq<real>,
    splinesUsed: int,
    spaceUsed: int)

  /** The shape fixed by the constructor, which no operation changes.  With
      no spline reserved the constructor returns before allocating, so the
      arrays are empty. */
  ghost predicate Intact(l: Layout) {
    && |l.result| == l.splinesReserved
    && |l.parameter| == l.splinesReserved
    && |l.index| == (if l.splinesReserved == 0 then 0 else l.splinesReserved + 1)
    && |l.space| == (if l.splinesReserved == 0 then 0 else l.spaceReserved)
    && (l.splinesReserved > 0 ==> l.index[0] == 0)
  }

  /** The build invariant: splines are packed contiguously in the order they
      were added, each one at least four values long, and the index table
      ends at the used knot space. */
  ghost predicate Valid(l: Layout) {
    && Intact(l)
    && 0 <= l.splinesUsed <= l.splinesReserved
    && 0 <= l.spaceUsed <= l.spaceReserved
    && (l.splinesReserved == 0 ==> l.spaceUsed == 0)
    && (l.splinesReserved > 0 ==> l.index[l.splinesUsed] == l.spaceUsed)
    && (forall i :: 0 <= i < l.splinesUsed ==> l.index[i] + MinSplineData <= l.index[i + 1])
    && (forall i :: 0 <= i < l.splinesUsed ==> 0 <= l.result[i] < l.weightsSize)
    && (forall i :: 0 <= i < l.splinesUsed ==> ShortMin <= l.parameter[i] <= ShortMax)
  }

  /** What every build operation keeps, including the ones that throw: the
      shape fixed by the constructor and non-negative counters.  After a
      caught throw the counters may have run past the reservations, and the
      index table may no longer end at the used knot space. */
  ghost predicate Counted(l: Layout) {
    Intact(l) && 0 <= l.splinesUsed && 0 <= l.spaceUsed
  }

  /** Every stored parameter index addresses a parameter.  This fails once a
      parameter index above ShortMax has been stored (it wraps negative). */
  ghost predicate ParametersAddressable(l: Layout) {
    Valid(l) && forall i :: 0 <= i < l.splinesUsed ==> 0 <= l.parameter[i] < l.parametersSize
  }

  /** The index table is monotone up to the used spline count, so every
      entry below it lies inside the used knot space. */
  lemma {:induction false} IndexBounds(l: Layout, s: int)
    requires Valid(l) && 0 <= s < l.splinesUsed
    ensures 0 <= l.index[s] && l.index[s] + MinSplineData <= l.index[s + 1] <= l.spaceUsed <= |l.space|
    decreases l.splinesUsed - s
  {
    IndexStart(l, s);
    if s + 1 < l.splinesUsed {
      IndexBounds(l, s + 1);
    }
  }

  /** Entries of the index table are never negative. */
  lemma {:induction false} IndexStart(l: Layout, s: int)
    requires Valid(l) && 0 <= s <= l.splinesUsed && l.splinesReserved > 0
    ensures 0 <= l.index[s]
  {
    if s > 0 {
      IndexStart(l, s - 1);
    }
  }

  /** Two splines never share a cell of the knot space: an earlier one ends
      before a later one starts. */
  lemma {:induction false} IndexOrdered(l: Layout, s: int, t: int)
    requires Valid(l) && 0 <= s < t <= l.splinesUsed
    ensures l.index[s + 1] <= l.index[t]
    decreases t - s
  {
    if s + 1 < t {
      IndexOrdered(l, s + 1, t);
    }
  }

  /** A sequence that agrees with `s` outside [k, k + |d|) and with `d`
      inside it is `s` with that stretch replaced by `d`. */
  lemma Splice(s: seq<real>, k: int, d: seq<real>, t: seq<real>)
    requires 0 <= k && k + |d| <= |s| == |t|
    requires forall j :: 0 <= j < |t| ==> t[j] == if k <= j < k + |d| then d[j - k] else s[j]
    ensures t == s[..k] + d + s[k + |d|..]
  {
  }

  // ---------------------------------------------------------------------
  // Accessors (GetSplineKnotCount, GetSplineLowerBound, ...).

  /** GetSplineKnotCount: the number of control points of spline `s`. */
  function KnotCount(l: Layout, s: int): (r: Result<int, CacheError>)
    requires Valid(l)
    ensures r.Success? <==> 0 <= s < l.splinesUsed
    ensures r.Success? ==> r.value >= MinSplineData - HeaderSize
  {
    if s < 0 || l.splinesUsed <= s then Failure(InvalidSplineIndex)
    else Success(l.index[s + 1] - l.index[s] - HeaderSize)
  }

  /** GetSplineLowerBound: the first header value of spline `s`. */
  function LowerBound(l: Layout, s: int): (r: Result<real, CacheError>)
    requires Valid(l)
    ensures r.Success? <==> 0 <= s < l.splinesUsed
  {
    if s < 0 || l.splinesUsed <= s then Failure(InvalidSplineIndex)
    else
      IndexBounds(l, s);
      Success(l.space[l.index[s]])
  }

  /** GetSplineUpperBound: the lower bound plus (KnotCount - 1) divided by
      the second header value, the inverse knot step.  `None` stands for
      the IEEE infinity or NaN the division gives when that value is zero. */
  function UpperBound(l: Layout, s: int): (r: Result<Option<real>, CacheError>)
    requires Valid(l)
    ensures r.Success? <==> 0 <= s < l.splinesUsed
    ensures r.Success? ==> (r.value.None? <==> Record(l, s)[1] == 0.0)
    ensures r.Success? && r.value.Some? ==>
      r.value.value == Record(l, s)[0] + (|Record(l, s)| - HeaderSize - 1) as real / Record(l, s)[1]
  {
    if s < 0 || l.splinesUsed <= s then Failure(InvalidSplineIndex)
    else
      IndexBounds(l, s);
      var count := KnotCount(l, s).value;
      var lower := LowerBound(l, s).value;
      var step := l.space[l.index[s] + 1];
      if step == 0.0 then Success(None)
      else Success(Some(lower + (count - 1) as real / step))
  }

  /** GetSplineParameterIndex: the stored (short) parameter index. */
  function ParameterIndex(l: Layout, s: int): (r: Result<int, CacheError>)
    requires Valid(l)
    ensures r.Success? <==> 0 <= s < l.splinesUsed
    ensures r.Success? ==> ShortMin <= r.value <= ShortMax
  {
    if s < 0 || l.splinesUsed <= s then Failure(InvalidSplineIndex)
    else Success(l.parameter[s])
  }

  /** The position in the knot space of control point `k` of spline `s`. */
  function KnotCell(l: Layout, s: int, k: int): int
    requires Valid(l) && 0 <= s < l.splinesUsed
  {
    l.index[s] + HeaderSize + k
  }

  /** GetSplineKnot: control point `k` of spline `s`. */
  function Knot(l: Layout, s: int, k: int): (r: Result<real, CacheError>)
    requires Valid(l)
    ensures r.Success? <==> 0 <= s < l.splinesUsed && 0 <= k < KnotCount(l, s).value
    ensures r == Failure(InvalidKnotIndex) <==> 0 <= s < l.splinesUsed && !(0 <= k < KnotCount(l, s).value)
  {
    if s < 0 || l.splinesUsed <= s then Failure(InvalidSplineIndex)
    else if k < 0 || KnotCount(l, s).value <= k then Failure(InvalidKnotIndex)
    else
      IndexBounds(l, s);
      Success(l.space[KnotCell(l, s, k)])
  }

  /** The raw record of spline `s` in the knot space: header then control
      points, as handed to the spline evaluation. */
  function Record(l: Layout, s: int): (r: seq<real>)
    requires Valid(l) && 0 <= s < l.splinesUsed
    ensures |r| == KnotCount(l, s).value + HeaderSize
    ensures r[0] == LowerBound(l, s).value
    ensures forall k :: 0 <= k < KnotCount(l, s).value ==> r[HeaderSize + k] == Knot(l, s, k).value
  {
    IndexBounds(l, s);
    l.space[l.index[s]..l.index[s + 1]]
  }

  /** GetSplineParameter, GetSplineLowerClamp and GetSplineUpperClamp: the
      stored parameter index of spline `s`, checked against the size of
      `table` (the parameter values or one of the clamp arrays), selects the
      entry of `table` returned. */
  function ParameterLookup(l: Layout, table: seq<real>, s: int): (r: Result<real, CacheError>)
    requires Valid(l)
    ensures r.Success? <==> 0 <= s < l.splinesUsed && 0 <= l.parameter[s] < |table|
    ensures r.Success? ==> r.value == table[l.parameter[s]]
  {
    var i :- ParameterIndex(l, s);
    if i < 0 then Failure(ParameterOutOfBounds)
    else if |table| <= i then Failure(ParameterOutOfBounds)
    else Success(table[i])
  }

  // ---------------------------------------------------------------------
  // Build operations.

  /** The state after an operation, and whether it threw. */
  datatype Change = Change(after: Layout, outcome: Outcome<CacheError>)

  /** The checks AddSpline makes before it touches any state. */
  predicate AddArgumentsValid(l: Layout, r: int, p: int, data: seq<real>) {
    0 <= r < l.weightsSize && 0 <= p < l.parametersSize && |data| >= MinSplineData
  }

  /** A call to Add that passes every check: the counters move on, the
      slots, the index entry and the knot space are written. */
  lemma AddPasses(l: Layout, r: int, p: int, data: seq<real>)
    requires Counted(l) && AddArgumentsValid(l, r, p, data)
    requires l.splinesUsed < l.splinesReserved && l.index[l.splinesUsed] == l.spaceUsed
    requires l.spaceUsed + |data| <= l.spaceReserved
    ensures 0 <= l.splinesUsed && l.splinesUsed + 1 < |l.index| && 0 <= l.spaceUsed
    ensures Add(l, r, p, data) ==
              Change(l.(splinesUsed := l.splinesUsed + 1,
                        result := l.result[l.splinesUsed := r],
                        parameter := l.parameter[l.splinesUsed := ToShort(p)],
                        spaceUsed := l.spaceUsed + |data|,
                        index := l.index[l.splinesUsed + 1 := l.spaceUsed + |data|],
                        space := l.space[..l.spaceUsed] + data + l.space[l.spaceUsed + |data|..]),
                     Pass)
  {
  }

  /** A call to Add with valid arguments and no spline left: only the
      counter has moved when it throws. */
  lemma AddRunsOutOfSplines(l: Layout, r: int, p: int, data: seq<real>)
    requires Counted(l) && AddArgumentsValid(l, r, p, data) && l.splinesUsed >= l.splinesReserved
    ensures Add(l, r, p, data) == Change(l.(splinesUsed := l.splinesUsed + 1), Fail(SplinesExhausted))
  {
  }

  /** A call to Add with valid arguments and too little knot space left:
      the counters have moved and the slots are written when it throws. */
  lemma AddRunsOutOfSpace(l: Layout, r: int, p: int, data: seq<real>)
    requires Counted(l) && AddArgumentsValid(l, r, p, data)
    requires l.splinesUsed < l.splinesReserved && l.index[l.splinesUsed] == l.spaceUsed
    requires l.spaceUsed + |data| > l.spaceReserved
    ensures 0 <= l.splinesUsed < |l.result| && l.splinesUsed < |l.parameter|
    ensures Add(l, r, p, data) ==
              Change(l.(splinesUsed := l.splinesUsed + 1,
                        result := l.result[l.splinesUsed := r],
                        parameter := l.parameter[l.splinesUsed := ToShort(p)],
                        spaceUsed := l.spaceUsed + |data|),
                     Fail(KnotSpaceExhausted))
  {
  }

  /** A call to Add with valid arguments and a free spline slot whose index
      entry is not the used knot space: the slots are written and both
      counters except the knot space have moved when it throws. */
  lemma AddBreaksOnControlIndices(l: Layout, r: int, p: int, data: seq<real>)
    requires Counted(l) && AddArgumentsValid(l, r, p, data)
    requires l.splinesUsed < l.splinesReserved && l.index[l.splinesUsed] != l.spaceUsed
    ensures 0 <= l.splinesUsed < |l.result| && l.splinesUsed < |l.parameter|
    ensures Add(l, r, p, data) ==
              Change(l.(splinesUsed := l.splinesUsed + 1,
                        result := l.result[l.splinesUsed := r],
                        parameter := l.parameter[l.splinesUsed := ToShort(p)]),
                     Fail(ControlIndices))
  {
  }

  /** AddSpline(r, p, data), step by step as the source does it: the
      argument checks, then the spline counter is incremented, then the
      result and parameter slots are written, then the contiguity check,
      then the knot space is claimed and checked, then the index entry and
      the data are written.  A throw leaves whatever was already done, so
      the call may come after an earlier one threw: the contiguity check
      fails only then. */
  function Add(l: Layout, r: int, p: int, data: seq<real>): (c: Change)
    requires Counted(l)
    ensures !AddArgumentsValid(l, r, p, data) ==> c.after == l && c.outcome.Fail?
    ensures c.outcome.Pass? <==>
      && AddArgumentsValid(l, r, p, data)
      && l.splinesUsed < l.splinesReserved
      && l.index[l.splinesUsed] == l.spaceUsed
      && l.spaceUsed + |data| <= l.spaceReserved
    ensures c.outcome == Fail(ControlIndices) <==>
      && AddArgumentsValid(l, r, p, data)
      && l.splinesUsed < l.splinesReserved
      && l.index[l.splinesUsed] != l.spaceUsed
    ensures Valid(l) ==> c.outcome != Fail(ControlIndices)
    ensures Valid(l) && c.outcome.Pass? ==> Valid(c.after)
    ensures Counted(c.after)
    ensures c.after.weightsSize == l.weightsSize && c.after.parametersSize == l.parametersSize
    ensures c.after.splinesReserved == l.splinesReserved && c.after.spaceReserved == l.spaceReserved
  {
    if r < 0 then Change(l, Fail(NegativeResultIndex))
    else if l.weightsSize <= r then Change(l, Fail(ResultIndexOutOfBounds))
    else if p < 0 then Change(l, Fail(NegativeParameterIndex))
    else if l.parametersSize <= p then Change(l, Fail(ParameterIndexOutOfBounds))
    else if |data| < MinSplineData then Change(l, Fail(InvalidNumberOfPoints))
    else
      var newIndex := l.splinesUsed;
      var counted := l.(splinesUsed := newIndex + 1);
      if counted.splinesUsed > l.splinesReserved then Change(counted, Fail(SplinesExhausted))
      else
        var slotted := counted.(result := l.result[newIndex := r],
                                parameter := l.parameter[newIndex := ToShort(p)]);
        if l.index[newIndex] != l.spaceUsed then Change(slotted, Fail(ControlIndices))
        else
          var knotIndex := l.spaceUsed;
          var claimed := slotted.(spaceUsed := l.spaceUsed + |data|);
          if claimed.spaceUsed > l.spaceReserved then Change(claimed, Fail(KnotSpaceExhausted))
          else
            var after := claimed.(index := l.index[newIndex + 1 := claimed.spaceUsed],
                                  space := l.space[..knotIndex] + data + l.space[knotIndex + |data|..]);
            AddKeepsValid(l, after, newIndex, r, p, data);
            Change(after, Pass)
  }

  /** The successful branch of Add re-establishes the build invariant when
      it held before the call. */
  lemma AddKeepsValid(l: Layout, after: Layout, newIndex: int, r: int, p: int, data: seq<real>)
    requires Counted(l) && newIndex == l.splinesUsed < l.splinesReserved
    requires l.index[newIndex] == l.spaceUsed
    requires l.spaceUsed + |data| <= l.spaceReserved && |data| >= MinSplineData
    requires after.weightsSize == l.weightsSize && after.parametersSize == l.parametersSize
    requires after.splinesReserved == l.splinesReserved && after.spaceReserved == l.spaceReserved
    requires after.splinesUsed == newIndex + 1 && after.spaceUsed == l.spaceUsed + |data|
    requires 0 <= r < l.weightsSize
    requires after.result == l.result[newIndex := r]
    requires after.parameter == l.parameter[newIndex := ToShort(p)]
    requires after.index == l.index[newIndex + 1 := after.spaceUsed]
    requires |after.space| == |l.space|
    ensures Valid(l) ==> Valid(after)
  {
    if Valid(l) {
      forall i | 0 <= i < after.splinesUsed
        ensures after.index[i] + MinSplineData <= after.index[i + 1]
      {
        if i == newIndex {
          assert after.index[i] == l.spaceUsed;
        }
      }
    }
  }

  /** After a knot-space overflow the knot counter stays past the
      reservation, so no later AddSpline passes until Reset.  The next call
      with valid arguments and a free spline slot throws "Problem with
      control indices" whenever the index entry of that slot lies within
      the reservation, as every entry a passing call writes does: the
      overflowing call advanced the counters but never wrote that entry. */
  lemma AddAfterSpaceOverflow(l: Layout, r: int, p: int, data: seq<real>, r2: int, p2: int, data2: seq<real>)
    requires Valid(l) && Add(l, r, p, data).outcome == Fail(KnotSpaceExhausted)
    ensures var a := Add(l, r, p, data).after;
      && a.spaceUsed > a.spaceReserved
      && Add(a, r2, p2, data2).outcome.Fail?
      && Add(a, r2, p2, data2).after.spaceUsed > a.spaceReserved
    ensures var a := Add(l, r, p, data).after;
      AddArgumentsValid(a, r2, p2, data2) && a.splinesUsed < a.splinesReserved &&
      a.index[a.splinesUsed] <= a.spaceReserved ==>
        Add(a, r2, p2, data2).outcome == Fail(ControlIndices)
  {
  }

  /** A concrete cache of two splines and eight knot cells: nine values
      overflow the knot space, and the next four-value spline then fails
      the contiguity check, because entry 1 of the index table still holds
      0 while eight plus one cells are counted as used.  Reset makes the
      cache accept that spline again. */
  lemma AddControlIndicesExample()
    ensures var l := Layout(1, 1, 2, 8, [0, 0], [0, 0], [0, 0, 0],
                            [0.0, 0.0, 0.0, 0.0, 0.0, 0.0, 0.0, 0.0], 0, 0);
      var big := [0.0, 1.0, 1.0, 1.0, 1.0, 1.0, 1.0, 1.0, 1.0];
      var small := [0.0, 1.0, 1.0, 1.0];
      && Valid(l)
      && Add(l, 0, 0, big).outcome == Fail(KnotSpaceExhausted)
      && Add(Add(l, 0, 0, big).after, 0, 0, small).outcome == Fail(ControlIndices)
      && Add(Reset(Add(Add(l, 0, 0, big).after, 0, 0, small).after), 0, 0, small).outcome == Pass
  {
    var l := Layout(1, 1, 2, 8, [0, 0], [0, 0], [0, 0, 0],
                    [0.0, 0.0, 0.0, 0.0, 0.0, 0.0, 0.0, 0.0], 0, 0);
    assert Valid(l);
  }

  /** Reset: both counters go back to zero; the arrays are untouched. */
  function Reset(l: Layout): (r: Layout)
    ensures Intact(l) ==> Valid(r)
    ensures Intact(l) ==> forall s :: KnotCount(r, s) == Failure(InvalidSplineIndex)
    ensures r.index == l.index && r.space == l.space
  {
    l.(splinesUsed := 0, spaceUsed := 0)
  }

  /** SetSplineKnot as the source has it: the range checks construct a
      runtime_error but never throw it, so the write always happens.  The
      requires clause only asks for the accesses to be inside the arrays
      (anything else is undefined behaviour in C++). */
  function SetKnotAsWritten(l: Layout, s: int, k: int, v: real): (r: Layout)
    requires Intact(l) && 0 <= s && s + 1 < |l.index|
    requires 0 <= l.index[s] + HeaderSize + k < |l.space|
    ensures Intact(r)
    ensures r.space == l.space[l.index[s] + HeaderSize + k := v]
    ensures r.(space := l.space) == l
  {
    l.(space := l.space[l.index[s] + HeaderSize + k := v])
  }

  /** SetSplineKnot as evidently intended: the four range checks throw, and
      only an existing control point is written. */
  function SetKnot(l: Layout, s: int, k: int, v: real): (c: Change)
    requires Valid(l)
    ensures c.outcome.Pass? <==> 0 <= s < l.splinesUsed && 0 <= k < KnotCount(l, s).value
    ensures c.outcome.Fail? ==> c.after == l
    ensures Valid(c.after)
  {
    if s < 0 then Change(l, Fail(InvalidControlPoint))
    else if l.splinesUsed <= s then Change(l, Fail(InvalidControlPoint))
    else if k < 0 then Change(l, Fail(InvalidControlPoint))
    else
      var knotIndex := l.index[s] + HeaderSize + k;
      if l.index[s + 1] <= knotIndex then Change(l, Fail(InvalidControlPoint))
      else
        IndexBounds(l, s);
        Change(l.(space := l.space[knotIndex := v]), Pass)
  }

  // ---------------------------------------------------------------------
  // Round trips and frames of the build operations.

  /** After a successful AddSpline(r, p, data) the new spline i occupies
      exactly |data| cells right after the previous ones, holding `data`
      verbatim, and the accessors give back what was added.  The parameter
      index comes back as the stored short. */
  lemma {:induction false} AddRoundTrip(l: Layout, r: int, p: int, data: seq<real>, k: int)
    requires Valid(l) && Add(l, r, p, data).outcome.Pass?
    ensures var a, i := Add(l, r, p, data).after, l.splinesUsed;
      && a.splinesUsed == i + 1
      && a.index[i + 1] == a.index[i] + |data|
      && a.spaceUsed == a.index[a.splinesUsed]
      && a.space[a.index[i]..a.index[i + 1]] == data
      && a.result[i] == r
      && KnotCount(a, i) == Success(|data| - HeaderSize)
      && LowerBound(a, i) == Success(data[0])
      && ParameterIndex(a, i) == Success(ToShort(p))
      && Knot(a, i, k) == (if 0 <= k < |data| - HeaderSize then Success(data[HeaderSize + k])
                           else Failure(InvalidKnotIndex))
  {
    var a, i := Add(l, r, p, data).after, l.splinesUsed;
    var start := l.spaceUsed;
    assert a.index[i] == start;
    assert a.space == l.space[..start] + data + l.space[start + |data|..];
    assert a.space[start..start + |data|] == data;
    if 0 <= k < |data| - HeaderSize {
      assert a.space[start + HeaderSize + k] == data[HeaderSize + k];
    }
  }

  /** After a successful AddSpline(r, p, data) the new spline's upper bound
      is computed from the header of `data`: its lower bound plus one less
      than its number of control points over its inverse step. */
  lemma {:induction false} AddUpperBound(l: Layout, r: int, p: int, data: seq<real>)
    requires Valid(l) && Add(l, r, p, data).outcome.Pass?
    ensures var u := UpperBound(Add(l, r, p, data).after, l.splinesUsed);
      && u.Success?
      && (u.value.None? <==> data[1] == 0.0)
      && (data[1] != 0.0 ==> u.value == Some(data[0] + (|data| - HeaderSize - 1) as real / data[1]))
  {
    var a, i := Add(l, r, p, data).after, l.splinesUsed;
    AddRoundTrip(l, r, p, data, 0);
    assert Record(a, i) == data;
  }

  /** A successful AddSpline changes nothing any earlier spline reports. */
  lemma {:induction false} AddKeepsEarlierSplines(l: Layout, r: int, p: int, data: seq<real>, s: int, k: int)
    requires Valid(l) && Add(l, r, p, data).outcome.Pass?
    requires s != l.splinesUsed
    ensures var a := Add(l, r, p, data).after;
      && KnotCount(a, s).Success? == KnotCount(l, s).Success?
      && (KnotCount(l, s).Success? ==>
           && KnotCount(a, s) == KnotCount(l, s)
           && LowerBound(a, s) == LowerBound(l, s)
           && ParameterIndex(a, s) == ParameterIndex(l, s)
           && Knot(a, s, k) == Knot(l, s, k)
           && Record(a, s) == Record(l, s))
  {
    var a := Add(l, r, p, data).after;
    if 0 <= s < l.splinesUsed {
      IndexBounds(l, s);
      var start := l.spaceUsed;
      assert a.space == l.space[..start] + data + l.space[start + |data|..];
      assert l.index[s + 1] <= start;
      assert a.index[s] == l.index[s] && a.index[s + 1] == l.index[s + 1];
      assert a.space[..start] == l.space[..start];
      assert Record(a, s) == a.space[l.index[s]..l.index[s + 1]] == l.space[l.index[s]..l.index[s + 1]];
    }
  }

  /** The corrected SetSplineKnot writes the control point it names, and
      every other control point of every spline, and every header, keeps
      its value. */
  lemma {:induction false} SetKnotRoundTrip(l: Layout, s: int, k: int, v: real, s': int, k': int)
    requires Valid(l) && SetKnot(l, s, k, v).outcome.Pass?
    ensures var a := SetKnot(l, s, k, v).after;
      && Knot(a, s, k) == Success(v)
      && KnotCount(a, s') == KnotCount(l, s')
      && LowerBound(a, s') == LowerBound(l, s')
      && ParameterIndex(a, s') == ParameterIndex(l, s')
      && ((s', k') != (s, k) ==> Knot(a, s', k') == Knot(l, s', k'))
  {
    var a := SetKnot(l, s, k, v).after;
    IndexBounds(l, s);
    var cell := l.index[s] + HeaderSize + k;
    assert a.space == l.space[cell := v];
    if 0 <= s' < l.splinesUsed {
      IndexBounds(l, s');
      if s' < s {
        IndexOrdered(l, s', s);
      } else if s < s' {
        IndexOrdered(l, s, s');
      }
    }
  }

  /** The writes of the as-written SetSplineKnot are bounded only by the
      arrays: asking for control point KnotCount(s) of a spline that is not
      the last one overwrites the lower bound of the next spline. */
  lemma {:induction false} SetKnotAsWrittenPastLastKnot(l: Layout, s: int, v: real)
    requires Valid(l) && 0 <= s && s + 1 < l.splinesUsed
    ensures (IndexBounds(l, s + 1);
      var a := SetKnotAsWritten(l, s, KnotCount(l, s).value, v);
      && Valid(a)
      && LowerBound(a, s + 1) == Success(v)
      && SetKnot(l, s, KnotCount(l, s).value, v) == Change(l, Fail(InvalidControlPoint)))
  {
    IndexBounds(l, s + 1);
    IndexBounds(l, s);
  }

  /** A concrete cache holding two splines shows the discrepancy above:
      setting control point 2 of a two-point spline 0 rewrites spline 1's
      lower bound from 5.0 to 9.0. */
  lemma SetKnotAsWrittenExample()
    ensures var l := Layout(1, 1, 2, 8, [0, 0], [0, 0], [0, 4, 8],
                            [0.0, 1.0, 2.0, 3.0, 5.0, 1.0, 6.0, 7.0], 2, 8);
      && Valid(l)
      && KnotCount(l, 0) == Success(2)
      && LowerBound(l, 1) == Success(5.0)
      && LowerBound(SetKnotAsWritten(l, 0, 2, 9.0), 1) == Success(9.0)
  {
    var l := Layout(1, 1, 2, 8, [0, 0], [0, 0], [0, 4, 8],
                    [0.0, 1.0, 2.0, 3.0, 5.0, 1.0, 6.0, 7.0], 2, 8);
    assert Valid(l);
  }

  /** A parameter index above ShortMax passes AddSpline's range check but
      is stored wrapped: from 32768 to 65535 it comes back negative, so it
      no longer addresses its parameter. */
  lemma {:induction false} AddWrapsLargeParameterIndex(l: Layout, r: int, p: int, data: seq<real>)
    requires Valid(l) && Add(l, r, p, data).outcome.Pass?
    ensures ShortMax < p <= 65535 ==>
      ParameterIndex(Add(l, r, p, data).after, l.splinesUsed) == Success(p - 65536)
    ensures p <= ShortMax ==> ParameterIndex(Add(l, r, p, data).after, l.splinesUsed) == Success(p)
  {
    AddRoundTrip(l, r, p, data, 0);
  }

  /** After AddSpline(r, p, data) the new spline reads parameter p from a
      table holding it, unless p is above ShortMax, in which case the
      wrapped index makes the lookup throw. */
  lemma {:induction false} AddParameterLookup(l: Layout, r: int, p: int, data: seq<real>, table: seq<real>)
    requires Valid(l) && Add(l, r, p, data).outcome.Pass?
    ensures p <= ShortMax && p < |table| ==>
      ParameterLookup(Add(l, r, p, data).after, table, l.splinesUsed) == Success(table[p])
    ensures ShortMax < p <= 65535 ==>
      ParameterLookup(Add(l, r, p, data).after, table, l.splinesUsed) == Failure(ParameterOutOfBounds)
  {
    AddWrapsLargeParameterIndex(l, r, p, data);
  }

  // ---------------------------------------------------------------------
  // The evaluation pass (Apply).

  /** The value the kernel computes for spline `i`: the parameter it reads,
      that parameter's clamps, and its record go to `eval` (the body of
      CalculateCompactSpline is not part of this model). */
  function SplineValue(l: Layout, params: seq<real>, lower: seq<real>, upper: seq<real>,
                       eval: (real, real, real, seq<real>) -> real, i: int): real
    requires ParametersAddressable(l) && 0 <= i < l.splinesUsed
    requires |params| == |lower| == |upper| == l.parametersSize
  {
    var p := l.parameter[i];
    eval(params[p], lower[p], upper[p], Record(l, i))
  }

  /** The values the kernel computes for splines 0 .. k-1, in order. */
  function SplineValues(l: Layout, params: seq<real>, lower: seq<real>, upper: seq<real>,
                        eval: (real, real, real, seq<real>) -> real, k: int): (vs: seq<real>)
    requires ParametersAddressable(l) && 0 <= k <= l.splinesUsed
    requires |params| == |lower| == |upper| == l.parametersSize
    ensures |vs| == k && forall i :: 0 <= i < k ==> vs[i] == SplineValue(l, params, lower, upper, eval, i)
  {
    seq(k, i requires 0 <= i < k => SplineValue(l, params, lower, upper, eval, i))
  }

  /** The first k result slots address an array of `size` entries. */
  predicate SlotsIn(slots: seq<int>, k: int, size: int)
  {
    0 <= k <= |slots| && forall i :: 0 <= i < k ==> 0 <= slots[i] < size
  }

  /** The result array after the kernel has handled splines 0 .. k-1, spline
      i multiplying its value vals[i] into its result slot slots[i]. */
  function Applied(w: seq<real>, slots: seq<int>, vals: seq<real>, k: int): (r: seq<real>)
    requires SlotsIn(slots, k, |w|) && k <= |vals|
    ensures |r| == |w|
    decreases k
  {
    if k == 0 then w
    else MultipliedAt(Applied(w, slots, vals, k - 1), slots[k - 1], vals[k - 1])
  }

  /** `w` with the entry at `slot` multiplied by `v`. */
  function MultipliedAt(w: seq<real>, slot: int, v: real): (r: seq<real>)
    requires 0 <= slot < |w|
    ensures |r| == |w| && r[slot] == w[slot] * v
    ensures forall j :: 0 <= j < |w| && j != slot ==> r[j] == w[j]
  {
    w[slot := w[slot] * v]
  }

  /** MultipliedAt is the only sequence that agrees with `w` except for the
      entry at `slot`, which is multiplied by `v`. */
  lemma MultipliedAtUnique(w: seq<real>, slot: int, v: real, r: seq<real>)
    requires 0 <= slot < |w| && |r| == |w| && r[slot] == w[slot] * v
    requires forall j :: 0 <= j < |w| && j != slot ==> r[j] == w[j]
    ensures r == MultipliedAt(w, slot, v)
  {
  }

  /** The product of the values of splines 0 .. k-1 that target `slot`. */
  function SlotFactor(slots: seq<int>, vals: seq<real>, slot: int, k: int): real
    requires 0 <= k <= |slots| && k <= |vals|
    decreases k
  {
    if k == 0 then 1.0
    else SlotFactor(slots, vals, slot, k - 1) * (if slots[k - 1] == slot then vals[k - 1] else 1.0)
  }

  /** After the pass, every result slot holds its old value times the
      product of the values of exactly the splines that target it. */
  lemma {:induction false} AppliedAt(w: seq<real>, slots: seq<int>, vals: seq<real>, k: int, slot: int)
    requires SlotsIn(slots, k, |w|) && k <= |vals| && 0 <= slot < |w|
    ensures Applied(w, slots, vals, k)[slot] == w[slot] * SlotFactor(slots, vals, slot, k)
    decreases k
  {
    if k > 0 {
      AppliedAt(w, slots, vals, k - 1, slot);
      var prev := Applied(w, slots, vals, k - 1);
      var f := SlotFactor(slots, vals, slot, k - 1);
      var g := if slots[k - 1] == slot then vals[k - 1] else 1.0;
      assert Applied(w, slots, vals, k) == MultipliedAt(prev, slots[k - 1], vals[k - 1]);
      assert SlotFactor(slots, vals, slot, k) == f * g;
      MulRegroup(prev[slot], w[slot], f, g, Applied(w, slots, vals, k)[slot]);
    }
  }

  lemma MulRegroup(x: real, a: real, f: real, g: real, y: real)
    requires x == a * f && y == x * g
    ensures y == a * (f * g)
  {
  }

  /** A result slot that no spline below k targets keeps its value through
      the pass. */
  lemma AppliedUntargeted(w: seq<real>, slots: seq<int>, vals: seq<real>, k: int, slot: int)
    requires SlotsIn(slots, k, |w|) && k <= |vals| && 0 <= slot < |w|
    requires forall i :: 0 <= i < k ==> slots[i] != slot
    ensures Applied(w, slots, vals, k)[slot] == w[slot]
  {
    AppliedAt(w, slots, vals, k, slot);
    UntargetedFactor(slots, vals, slot, k);
  }

  /** A slot no spline below k targets has factor 1. */
  lemma {:induction false} UntargetedFactor(slots: seq<int>, vals: seq<real>, slot: int, k: int)
    requires 0 <= k <= |slots| && k <= |vals|
    ensures (forall i :: 0 <= i < k ==> slots[i] != slot) ==> SlotFactor(slots, vals, slot, k) == 1.0
    decreases k
  {
    if k > 0 {
      UntargetedFactor(slots, vals, slot, k - 1);
    }
  }
}

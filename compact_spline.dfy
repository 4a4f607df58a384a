/** Cache::Weight::CompactSpline: a bank of compact cubic splines packed
    into four flat arrays, and the pass that multiplies every spline's
    value into its result slot.  Each method is specified by the matching
    function of SplineLayout applied to the arrays' contents (`View`). */
module CompactSplineCache {
  import opened Outcomes
  import opened SplineLayout

  /** The spline evaluator of the kernel (CalculateCompactSpline): given the
      parameter value, its lower and upper clamps and the spline's record
      (lower bound, inverse step, control points), the spline's value. */
  type SplineEvaluator = (real, real, real, seq<real>) -> real

  /** The knot copy of AddSpline: `data` is written into `space` from
      index `at` on, and nothing else changes. */
  method WriteKnots(space: array<real>, at: int, data: seq<real>)
    requires 0 <= at && at + |data| <= space.Length
    modifies space
    ensures space[..] == old(space[..])[..at] + data + old(space[..])[at + |data|..]
  {
    ghost var before := space[..];
    for i := 0 to |data|
      invariant forall j :: 0 <= j < space.Length ==>
        space[j] == if at <= j < at + i then data[j - at] else before[j]
    {
      space[at + i] := data[i];
    }
    Splice(before, at, data, space[..]);
  }

  /** The loop of Apply over the splines in use, reading the cache's tables
      `result`, `parameter`, `index` and `space`, whose contents are those of
      the layout `l`. */
  method ApplySplines(weights: array<real>, parameters: array<real>, lowerClamp: array<real>, upperClamp: array<real>,
                      result: array<int>, parameter: array<int>, index: array<int>, space: array<real>,
                      n: int, ghost l: Layout, eval: SplineEvaluator)
    requires SplineLayout.Valid(l) && ParametersAddressable(l) && n == l.splinesUsed
    requires result[..] == l.result && parameter[..] == l.parameter && index[..] == l.index && space[..] == l.space
    requires weights.Length == l.weightsSize
    requires parameters.Length == l.parametersSize && lowerClamp.Length == l.parametersSize
    requires upperClamp.Length == l.parametersSize
    requires weights != parameters && weights != lowerClamp && weights != upperClamp && weights != space
    modifies weights
    ensures weights[..] == Applied(old(weights[..]), l.result,
                                   SplineValues(l, parameters[..], lowerClamp[..], upperClamp[..], eval, n), n)
  {
    ghost var w0 := weights[..];
    ghost var params, lower, upper := parameters[..], lowerClamp[..], upperClamp[..];
    ghost var vals := SplineValues(l, params, lower, upper, eval, n);
    var i := 0;
    while i < n
      invariant 0 <= i <= n
      invariant weights[..] == Applied(w0, l.result, vals, i)
    {
      IndexBounds(l, i);
      var id0 := index[i];
      var id1 := index[i + 1];
      var p := parameter[i];
      var v := eval(parameters[p], lowerClamp[p], upperClamp[p], space[id0..id1]);
      assert v == SplineValue(l, params, lower, upper, eval, i);
      MultiplyInto(weights, result[i], v);
      i := i + 1;
    }
  }

  /** One step of Apply: the weight at `slot` is multiplied by `v`. */
  method MultiplyInto(weights: array<real>, slot: int, v: real)
    requires 0 <= slot < weights.Length
    modifies weights
    ensures weights[..] == MultipliedAt(old(weights[..]), slot, v)
  {
    ghost var prev := weights[..];
    weights[slot] := weights[slot] * v;
    MultipliedAtUnique(prev, slot, v, weights[..]);
  }

  class CompactSpline {
    // Arrays shared with the cache manager: the per-event results this
    // cache multiplies into, the parameter values and their clamps.
    const weights: array<real>
    const parameters: array<real>
    const lowerClamp: array<real>
    const upperClamp: array<real>

    const splinesReserved: nat
    const spaceReserved: nat
    var splinesUsed: int
    var spaceUsed: int

    // fSplineResult, fSplineParameter (a `short` per spline), fSplineIndex
    // and fSplineSpace.
    const splineResult: array<int>
    const splineParameter: array<int>
    const splineIndex: array<int>
    const splineSpace: array<real>

    /** The cache as a value. */
    ghost function View(): Layout
      reads this, splineResult, splineParameter, splineIndex, splineSpace
    {
      Layout(weights.Length, parameters.Length, splinesReserved, spaceReserved,
             splineResult[..], splineParameter[..], splineIndex[..], splineSpace[..],
             splinesUsed, spaceUsed)
    }

    /** The cache's own arrays are distinct from each other and from the
        shared ones, and the results are not the parameters or clamps. */
    ghost predicate Separate()
      reads this
    {
      && splineResult != splineParameter && splineResult != splineIndex && splineParameter != splineIndex
      && splineSpace != weights && splineSpace != parameters
      && splineSpace != lowerClamp && splineSpace != upperClamp
      && weights != parameters && weights != lowerClamp && weights != upperClamp
    }

    /** The shape set up by the constructor; it survives every operation,
        including the ones that throw. */
    ghost predicate Intact()
      reads this, splineResult, splineParameter, splineIndex, splineSpace
    {
      Separate() && SplineLayout.Intact(View())
    }

    /** What every build operation keeps, including the ones that throw:
        the shape and non-negative counters. */
    ghost predicate Counted()
      reads this, splineResult, splineParameter, splineIndex, splineSpace
    {
      Separate() && SplineLayout.Counted(View())
    }

    /** The build invariant, which holds after construction, after Reset and
        after every AddSpline that did not throw. */
    ghost predicate Valid()
      reads this, splineResult, splineParameter, splineIndex, splineSpace
    {
      Separate() && SplineLayout.Valid(View())
    }

    /** The constructor proper, once the space option has been resolved to
        `space`.  With no spline reserved it returns before allocating the
        tables, before Reset and before setting the first index entry. */
    constructor (weights: array<real>, parameters: array<real>,
                 lowerClamps: array<real>, upperClamps: array<real>,
                 splines: nat, space: nat)
      requires weights != parameters && weights != lowerClamps && weights != upperClamps
      ensures Valid()
      ensures this.weights == weights && this.parameters == parameters
      ensures this.lowerClamp == lowerClamps && this.upperClamp == upperClamps
      ensures fresh(splineResult) && fresh(splineParameter) && fresh(splineIndex) && fresh(splineSpace)
      ensures View().splinesReserved == splines && View().spaceReserved == space
      ensures View().splinesUsed == 0 && View().spaceUsed == 0
    {
      this.weights := weights;
      this.parameters := parameters;
      this.lowerClamp := lowerClamps;
      this.upperClamp := upperClamps;
      splinesReserved := splines;
      spaceReserved := space;
      splinesUsed := 0;
      spaceUsed := 0;
      if splines < 1 {
        splineResult := new int[0];
        splineParameter := new int[0];
        splineIndex := new int[0];
        splineSpace := new real[0];
      } else {
        splineResult := new int[splines];
        splineParameter := new int[splines];
        splineIndex := new int[1 + splines];
        splineSpace := new real[space];
      }
      new;
      if splines >= 1 {
        Reset();
        splineIndex[0] := 0;
      }
    }

    /** CompactSpline(weights, parameters, lowerClamps, upperClamps, splines,
        knots, spaceOption).  With option "points" the knot space reserved
        is `knots` plus two header values per spline; with "space" it is
        `knots`; any other option throws, unless no spline is reserved, in
        which case the option is never looked at. */
    static method Create(weights: array<real>, parameters: array<real>,
                         lowerClamps: array<real>, upperClamps: array<real>,
                         splines: nat, knots: nat, spaceOption: string)
      returns (r: Result<CompactSpline, CacheError>)
      requires weights != parameters && weights != lowerClamps && weights != upperClamps
      ensures r.Failure? <==> 1 <= splines && spaceOption != "points" && spaceOption != "space"
      ensures r.Failure? ==> r.error == InvalidSpaceOption
      ensures r.Success? ==>
        && fresh(r.value) && r.value.Valid()
        && r.value.weights == weights && r.value.parameters == parameters
        && r.value.View().splinesReserved == splines
        && r.value.View().spaceReserved ==
             (if 1 <= splines && spaceOption == "points" then 2 * splines + knots else knots)
        && r.value.View().splinesUsed == 0 && r.value.View().spaceUsed == 0
    {
      var space := knots;
      if 1 <= splines {
        if spaceOption == "points" {
          space := 2 * splines + knots;
        } else if spaceOption != "space" {
          return Failure(InvalidSpaceOption);
        }
      }
      var cache := new CompactSpline(weights, parameters, lowerClamps, upperClamps, splines, space);
      return Success(cache);
    }

    /** AddSpline(resIndex, parIndex, splineData): the state afterwards and
        the exception, if any, are those of SplineLayout.Add.  The call may
        follow one that threw, so only `Counted` is required; from a valid
        cache the contiguity check never fails and a passing call keeps the
        cache valid. */
    method AddSpline(resIndex: int, parIndex: int, splineData: seq<real>)
      returns (outcome: Outcome<CacheError>)
      requires Counted()
      modifies this, splineResult, splineParameter, splineIndex, splineSpace
      ensures Counted()
      ensures Change(View(), outcome) == Add(old(View()), resIndex, parIndex, splineData)
      ensures old(Valid()) ==> outcome != Fail(ControlIndices)
      ensures old(Valid()) && outcome.Pass? ==> Valid()
    {
      ghost var before := View();
      if resIndex < 0 {
        return Fail(NegativeResultIndex);
      }
      if weights.Length <= resIndex {
        return Fail(ResultIndexOutOfBounds);
      }
      if parIndex < 0 {
        return Fail(NegativeParameterIndex);
      }
      if parameters.Length <= parIndex {
        return Fail(ParameterIndexOutOfBounds);
      }
      if |splineData| < MinSplineData {
        return Fail(InvalidNumberOfPoints);
      }
      var newIndex := splinesUsed;
      splinesUsed := splinesUsed + 1;
      if splinesUsed > splinesReserved {
        AddRunsOutOfSplines(before, resIndex, parIndex, splineData);
        return Fail(SplinesExhausted);
      }
      splineResult[newIndex] := resIndex;
      splineParameter[newIndex] := ToShort(parIndex);
      if splineIndex[newIndex] != spaceUsed {
        AddBreaksOnControlIndices(before, resIndex, parIndex, splineData);
        return Fail(ControlIndices);
      }
      var knotIndex := spaceUsed;
      spaceUsed := spaceUsed + |splineData|;
      if spaceUsed > spaceReserved {
        AddRunsOutOfSpace(before, resIndex, parIndex, splineData);
        return Fail(KnotSpaceExhausted);
      }
      splineIndex[newIndex + 1] := spaceUsed;
      WriteKnots(splineSpace, knotIndex, splineData);
      assert splineIndex[..] == before.index[newIndex + 1 := spaceUsed];
      assert splineResult[..] == before.result[newIndex := resIndex];
      assert splineParameter[..] == before.parameter[newIndex := ToShort(parIndex)];
      AddPasses(before, resIndex, parIndex, splineData);
      return Pass;
    }

    /** SetSplineKnot(sIndex, kIndex, value), with the range checks the
        source builds actually thrown (SetKnotAsWritten is the version that
        never throws): only an existing control point is written. */
    method SetSplineKnot(sIndex: int, kIndex: int, value: real) returns (outcome: Outcome<CacheError>)
      requires Valid()
      modifies splineSpace
      ensures Valid()
      ensures Change(View(), outcome) == SetKnot(old(View()), sIndex, kIndex, value)
    {
      if sIndex < 0 || splinesUsed <= sIndex || kIndex < 0 {
        return Fail(InvalidControlPoint);
      }
      var knotIndex := splineIndex[sIndex] + HeaderSize + kIndex;
      if splineIndex[sIndex + 1] <= knotIndex {
        return Fail(InvalidControlPoint);
      }
      IndexBounds(View(), sIndex);
      splineSpace[knotIndex] := value;
      return Pass;
    }

    /** Reset: no spline and no knot space is in use any more. */
    method Reset()
      requires Separate()
      modifies this
      ensures View() == SplineLayout.Reset(old(View()))
      ensures old(Intact()) ==> Valid()
    {
      splinesUsed := 0;
      spaceUsed := 0;
    }

    method GetSplinesUsed() returns (n: int)
      requires Valid()
      ensures 0 <= n <= splinesReserved
      ensures forall s :: KnotCount(View(), s).Success? <==> 0 <= s < n
    {
      n := splinesUsed;
    }

    method GetSplineParameterIndex(sIndex: int) returns (r: Result<int, CacheError>)
      requires Valid()
      ensures r == ParameterIndex(View(), sIndex)
    {
      if sIndex < 0 || splinesUsed <= sIndex {
        return Failure(InvalidSplineIndex);
      }
      return Success(splineParameter[sIndex]);
    }

    method GetSplineParameter(sIndex: int) returns (r: Result<real, CacheError>)
      requires Valid()
      ensures r == ParameterLookup(View(), parameters[..], sIndex)
    {
      var i :- GetSplineParameterIndex(sIndex);
      if i < 0 || parameters.Length <= i {
        return Failure(ParameterOutOfBounds);
      }
      return Success(parameters[i]);
    }

    method GetSplineUpperBound(sIndex: int) returns (r: Result<Option<real>, CacheError>)
      requires Valid()
      ensures r == UpperBound(View(), sIndex)
    {
      if sIndex < 0 || splinesUsed <= sIndex {
        return Failure(InvalidSplineIndex);
      }
      var count := GetSplineKnotCount(sIndex);
      var lower := GetSplineLowerBound(sIndex);
      IndexBounds(View(), sIndex);
      var knotsIndex := splineIndex[sIndex];
      var step := splineSpace[knotsIndex + 1];
      if step == 0.0 {
        return Success(None);
      }
      return Success(Some(lower.value + (count.value - 1) as real / step));
    }

    method GetSplineLowerClamp(sIndex: int) returns (r: Result<real, CacheError>)
      requires Valid()
      ensures r == ParameterLookup(View(), lowerClamp[..], sIndex)
    {
      var i :- GetSplineParameterIndex(sIndex);
      if i < 0 || lowerClamp.Length <= i {
        return Failure(ParameterOutOfBounds);
      }
      return Success(lowerClamp[i]);
    }

    method GetSplineUpperClamp(sIndex: int) returns (r: Result<real, CacheError>)
      requires Valid()
      ensures r == ParameterLookup(View(), upperClamp[..], sIndex)
    {
      var i :- GetSplineParameterIndex(sIndex);
      if i < 0 || upperClamp.Length <= i {
        return Failure(ParameterOutOfBounds);
      }
      return Success(upperClamp[i]);
    }

    method GetSplineKnotCount(sIndex: int) returns (r: Result<int, CacheError>)
      requires Valid()
      ensures r == KnotCount(View(), sIndex)
    {
      if sIndex < 0 || splinesUsed <= sIndex {
        return Failure(InvalidSplineIndex);
      }
      return Success(splineIndex[sIndex + 1] - splineIndex[sIndex] - HeaderSize);
    }

    method GetSplineLowerBound(sIndex: int) returns (r: Result<real, CacheError>)
      requires Valid()
      ensures r == LowerBound(View(), sIndex)
    {
      if sIndex < 0 || splinesUsed <= sIndex {
        return Failure(InvalidSplineIndex);
      }
      IndexBounds(View(), sIndex);
      var knotsIndex := splineIndex[sIndex];
      return Success(splineSpace[knotsIndex]);
    }

    method GetSplineKnot(sIndex: int, knot: int) returns (r: Result<real, CacheError>)
      requires Valid()
      ensures r == Knot(View(), sIndex, knot)
    {
      if sIndex < 0 || splinesUsed <= sIndex {
        return Failure(InvalidSplineIndex);
      }
      var knotsIndex := splineIndex[sIndex];
      var count := GetSplineKnotCount(sIndex);
      if knot < 0 || count.value <= knot {
        return Failure(InvalidKnotIndex);
      }
      IndexBounds(View(), sIndex);
      return Success(splineSpace[knotsIndex + HeaderSize + knot]);
    }

    /** Apply: nothing happens and false is returned when no spline is in
        use; otherwise every spline in use, in index order, multiplies its
        value into its result slot, and true is returned. */
    method Apply(eval: SplineEvaluator) returns (applied: bool)
      requires Valid() && ParametersAddressable(View())
      requires lowerClamp.Length == parameters.Length && upperClamp.Length == parameters.Length
      modifies weights
      ensures applied <==> splinesUsed >= 1
      ensures weights[..] == Applied(old(weights[..]), View().result,
                                     SplineValues(View(), parameters[..], lowerClamp[..], upperClamp[..], eval, splinesUsed),
                                     splinesUsed)
    {
      if splinesUsed < 1 {
        return false;
      }
      ApplySplines(weights, parameters, lowerClamp, upperClamp, splineResult, splineParameter, splineIndex, splineSpace,
                   splinesUsed, View(), eval);
      return true;
    }
  }
}

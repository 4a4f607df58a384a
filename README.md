# Event-reweighting bookkeeping of GUNDAM, in Dafny

This project models four pieces of the GUNDAM fitter's bookkeeping and proves
properties about them.

- **The compact-spline weight cache** (`Cache::Weight::CompactSpline`). Many
  cubic splines are packed into four flat arrays:
  - a result slot per spline;
  - a 16-bit parameter index per spline;
  - a start-offset table with one more entry than there are splines;
  - a knot space holding, for each spline, its lower bound and inverse step,
    followed by its control points.

  `AddSpline` appends a spline under range, capacity and contiguity checks.
  The accessors read the splines back. `Apply` multiplies every spline's
  value into its result slot.
- **The propagator's worker bodies** (`Propagator`):
  - the round-robin split of events between workers in `reweightSampleEvents`;
  - the size of every event's dial-pointer list (`initializeCaches`);
  - the first-matching-dial assignment of `fillEventDialCaches`;
  - the response-function rebuild of the MC histograms
    (`applyResponseFunctions`) and the deviation step it relies on;
  - the switch between the two propagation strategies.
- **`PhysicsEvent`**: its weight carriers (tree, nominal and event weight)
  with their setters, reset, multiply and restore, and the first-match leaf
  lookup `findVarIndex` / `getVarAsDouble`.
- **`FitSampleSet`**:
  - duplicate-free registration of event-by-event dial leaf names;
  - the enabled-sample filter of `initialize`;
  - `empty` and the likelihood sum of `evalLikelihood`;
  - the Asimov copy of MC events into data (`loadAsimovData`).

Modelling choices:

- `double` is `real`. C++ exceptions become `Result`/`Outcome` values, whose
  error constructors name the source's messages.
- The `short` parameter store is modelled by `ToShort` as 16-bit
  wrap-around.
- Code this model cannot see becomes a function parameter:
  - the spline evaluation `CalculateCompactSpline`;
  - `reweightUsingDialCache`;
  - `SampleElement::refillHistogram` with the rescale that follows it;
  - the apply-condition formulas and `isBetweenEdges`;
  - the per-bin Poisson likelihood;
  - `TMath::Sqrt`.
- Each worker body is a sequential method taking the worker id and the
  worker count as parameters.
- Objects whose fields the source updates (`CompactSpline`, `PhysicsEvent`,
  `FitSampleSet`, `Propagator`) are classes. Every state-changing method is
  proved against a pure function of the old state: `SplineLayout.Add`,
  `LeafLookup`, `EnabledSamples`, `TotalLlh`, `DialListAfter`,
  `RfHistogram`, and so on.

Modules, one per file:

- `Outcomes` (outcomes.dfy);
- `SplineLayout` (spline_layout.dfy) and `CompactSplineCache`
  (compact_spline.dfy);
- `PhysicsEvents` (physics_event.dfy);
- `FitSamples` (fit_sample_set.dfy);
- `Partition` (partition.dfy): the worker split;
- `DialCache` (dial_cache.dfy): candidate dial sets and dial assignment;
- `ResponseFunctions` (response_functions.dfy);
- `Propagation` (propagator.dfy).

Where the source's behaviour is surprising, the model follows the code:

- `SetSplineKnot` builds its `runtime_error` objects but never throws them.
  This is recorded under Findings.
- A parameter index above 32767 passes `AddSpline`'s range check but is
  stored wrapped to a negative `short`.
- The dial-cache event loop of `fillEventDialCaches` runs from
  `eventOffSetList[d]` up to `eventNbList[d]`, an event count used as an
  end index.
- That loop compares unsigned values, so worker -1 owns no event there. In
  `reweightSampleEvents`, worker -1 means a single worker visiting every
  event.
- A dial's pointer is written to `getRawDialPtrList()[eventDialOffset++]`
  without a bounds check. `DialCache.AssignmentFitsPreSize` proves that the
  size `initializeCaches` gives the list always suffices.

## Model

All source paths below are under `src/`: `CacheManager/src/WeightCompactSpline.cpp`, `ErrorPropagator/src/Propagator.cpp`, `fitsamples/src/PhysicsEvent.cpp`, `FitSamples/src/FitSampleSet.cpp`.

| member | source | states |
|---|---|---|
| SplineLayout.ToShort | src/CacheManager/src/WeightCompactSpline.cpp:143 | The stored parameter index lies in the `short` range, is congruent to the given index modulo 65536, and equals it whenever it already fits. |
| SplineLayout.IndexBounds | src/CacheManager/src/WeightCompactSpline.cpp:144-158 | Under the build invariant, each used spline starts at a non-negative offset and occupies at least four cells. Its record ends within the used knot space, which fits in the array. |
| SplineLayout.IndexOrdered | src/CacheManager/src/WeightCompactSpline.cpp:149-158 | An earlier spline ends at or before a later spline starts, so no two splines share a cell. |
| SplineLayout.KnotCount | src/CacheManager/src/WeightCompactSpline.cpp:212-220 | Succeeds exactly for a spline index in [0, used). A successful count is at least 2. |
| SplineLayout.LowerBound | src/CacheManager/src/WeightCompactSpline.cpp:222-231 | Succeeds exactly for a spline index in [0, used). |
| SplineLayout.UpperBound | src/CacheManager/src/WeightCompactSpline.cpp:233-245 | Succeeds exactly for a used spline. The bound is the record's lower bound plus (knot count - 1) over the stored inverse step. It is non-finite (`None`) exactly when that step is 0. |
| SplineLayout.ParameterIndex | src/CacheManager/src/WeightCompactSpline.cpp:191-199 | Succeeds exactly for a used spline and returns a value in the `short` range. |
| SplineLayout.Knot | src/CacheManager/src/WeightCompactSpline.cpp:269-285 | Succeeds exactly when the spline is used and 0 <= k < its knot count. A used spline with any other k gives "Knot index invalid". |
| SplineLayout.Record | src/CacheManager/src/WeightCompactSpline.cpp:336-347 | The record handed to the evaluator has knot count + 2 entries. Its first entry is the lower bound, and entry 2 + k is control point k. |
| SplineLayout.ParameterLookup | src/CacheManager/src/WeightCompactSpline.cpp:201-210 | Succeeds exactly when the spline is used and its stored parameter index addresses the table. It then returns that entry. |
| SplineLayout.Add | src/CacheManager/src/WeightCompactSpline.cpp:106-163 | Models the step order, including a throw after the counters have moved. It accepts any state a caught throw leaves (`Counted`), not only a valid cache. The contract: Add passes exactly when the arguments are valid, a spline slot is free, the slot's index entry equals the used knot space and the data fits. It throws "Problem with control indices" exactly when the arguments are valid, a slot is free and that index entry differs, which never happens on a valid cache. Invalid arguments throw with no state change. A pass from a valid cache keeps the build invariant. Every outcome keeps the constructor's shape, non-negative counters and the reservations. |
| SplineLayout.AddPasses | src/CacheManager/src/WeightCompactSpline.cpp:134-161 | A passing AddSpline makes exactly these changes, and nothing else changes: both counters advance, the two slots and index entry `used+1` are written, and the data is spliced in at the old end of the used space. |
| SplineLayout.AddRunsOutOfSplines | src/CacheManager/src/WeightCompactSpline.cpp:134-141 | With valid arguments and no spline slot free, AddSpline throws "Not enough space reserved for splines". The spline counter has still been incremented. |
| SplineLayout.AddRunsOutOfSpace | src/CacheManager/src/WeightCompactSpline.cpp:142-157 | With too little knot space, AddSpline throws. The result and parameter slots are already written and both counters already advanced. |
| SplineLayout.AddKeepsValid | src/CacheManager/src/WeightCompactSpline.cpp:149-158 | When the build invariant held before the call, the successful branch re-establishes it: contiguous splines of at least four cells, `index[used] == spaceUsed`, and result slots in range. |
| SplineLayout.AddBreaksOnControlIndices | src/CacheManager/src/WeightCompactSpline.cpp:134-148 | With valid arguments, a free slot and an index entry that is not the used knot space, AddSpline throws "Problem with control indices". The spline counter has already advanced and the result and parameter slots are already written. |
| SplineLayout.AddAfterSpaceOverflow | src/CacheManager/src/WeightCompactSpline.cpp:142-158 | After a knot-space overflow the knot counter stays past the reservation, so every later AddSpline throws until Reset. When the next slot's index entry lies within the reservation, a call with valid arguments and a free slot throws "Problem with control indices": the overflowing call never wrote that entry. |
| SplineLayout.AddControlIndicesExample | src/CacheManager/src/WeightCompactSpline.cpp:134-158 | A concrete two-spline cache with eight knot cells. Nine values overflow the knot space, the next four-value spline throws "Problem with control indices", and after Reset the same spline is accepted. |
| SplineLayout.Reset | src/CacheManager/src/WeightCompactSpline.cpp:370-377 | After Reset every spline index is invalid and the build invariant holds. The index table and the knot space are untouched. |
| SplineLayout.SetKnotAsWritten | src/CacheManager/src/WeightCompactSpline.cpp:165-189 | As written, the cell index[s]+2+k is overwritten whatever s and k, and nothing else changes. |
| SplineLayout.SetKnot | src/CacheManager/src/WeightCompactSpline.cpp:165-189 | The intended version passes exactly for an existing control point. On failure nothing changes, and the build invariant always holds. |
| SplineLayout.AddRoundTrip | src/CacheManager/src/WeightCompactSpline.cpp:158-161 | After a successful AddSpline(r, p, data), the new spline occupies \|data\| cells that hold data verbatim, and `spaceUsed == index[used]`. The accessors give back its count (\|data\|-2), lower bound (data[0]), parameter (p stored as a short), control points (data[2+k]), and "Knot index invalid" for any other k. |
| SplineLayout.AddUpperBound | src/CacheManager/src/WeightCompactSpline.cpp:233-245 | After a successful AddSpline, the new spline's upper bound is data[0] + (\|data\| - 3) / data[1]. It is non-finite exactly when data[1] is 0. |
| SplineLayout.AddKeepsEarlierSplines | src/CacheManager/src/WeightCompactSpline.cpp:149-161 | A successful AddSpline changes nothing that any other spline reports: validity, count, lower bound, parameter, knots and record. |
| SplineLayout.SetKnotRoundTrip | src/CacheManager/src/WeightCompactSpline.cpp:182-188 | After the checked SetSplineKnot(s, k, v), knot (s, k) reads v. Every other knot, every count, lower bound and parameter of every spline is unchanged. |
| SplineLayout.SetKnotAsWrittenPastLastKnot | src/CacheManager/src/WeightCompactSpline.cpp:177-188 | As written, setting control point KnotCount(s) of a spline that is not the last overwrites the next spline's lower bound, a write the checked version rejects. |
| SplineLayout.SetKnotAsWrittenExample | src/CacheManager/src/WeightCompactSpline.cpp:177-188 | A concrete two-spline cache in which SetSplineKnot(0, 2, 9.0) changes spline 1's lower bound from 5.0 to 9.0. |
| SplineLayout.AddWrapsLargeParameterIndex | src/CacheManager/src/WeightCompactSpline.cpp:124-143 | A parameter index p in [32768, 65535] passes the range check but reads back as p - 65536. An index that fits a short reads back unchanged. |
| SplineLayout.AddParameterLookup | src/CacheManager/src/WeightCompactSpline.cpp:201-210 | After AddSpline with p <= 32767, the parameter getters read entry p. With p in [32768, 65535] they throw "index out of bounds". |
| SplineLayout.SplineValues | src/CacheManager/src/WeightCompactSpline.cpp:336-347 | One value per spline, in order: the evaluator applied to the spline's parameter value, its clamps and its record. |
| SplineLayout.MultipliedAt | src/CacheManager/src/WeightCompactSpline.cpp:353 | Only the target slot changes, and it is multiplied by the value. |
| SplineLayout.AppliedAt | src/CacheManager/src/WeightCompactSpline.cpp:336-353 | After the kernel, every result slot holds its old value times the product of the values of exactly the splines that target it. |
| SplineLayout.AppliedUntargeted | src/CacheManager/src/WeightCompactSpline.cpp:336-353 | A result slot no spline targets keeps its value. |
| CompactSplineCache.WriteKnots | src/CacheManager/src/WeightCompactSpline.cpp:159-161 | The knot-copy loop writes data at the given offset and leaves every other cell as it was. |
| CompactSplineCache.ApplySplines | src/CacheManager/src/WeightCompactSpline.cpp:336-366 | The kernel loop leaves the weights equal to `Applied` over the spline values in spline order. |
| CompactSplineCache.MultiplyInto | src/CacheManager/src/WeightCompactSpline.cpp:353 | One multiplication into one result slot, as `MultipliedAt`. |
| CompactSplineCache.CompactSpline.constructor | src/CacheManager/src/WeightCompactSpline.cpp:21-97 | The new cache is valid, empty and has the requested reservations. With no spline reserved it allocates nothing. |
| CompactSplineCache.CompactSpline.Create | src/CacheManager/src/WeightCompactSpline.cpp:35-47 | Fails exactly when at least one spline is reserved and the option is neither "points" nor "space". With "points" the reserved space is 2*splines + knots; otherwise it is knots. |
| CompactSplineCache.CompactSpline.AddSpline | src/CacheManager/src/WeightCompactSpline.cpp:106-163 | Callable after an earlier call threw. The new state and the exception are exactly those of `SplineLayout.Add`, including "Problem with control indices". The shape and non-negative counters always survive. From a valid cache the contiguity check never fails, and a pass keeps the build invariant. |
| CompactSplineCache.CompactSpline.SetSplineKnot | src/CacheManager/src/WeightCompactSpline.cpp:165-189 | The new state and outcome are those of the checked `SplineLayout.SetKnot`, and the build invariant is kept. |
| CompactSplineCache.CompactSpline.Reset | src/CacheManager/src/WeightCompactSpline.cpp:370-377 | The new state is `SplineLayout.Reset` of the old one. An intact cache becomes valid. |
| CompactSplineCache.CompactSpline.GetSplinesUsed | src/CacheManager/src/WeightCompactSpline.cpp:192-197 | The count is within the reservation, and the spline indices that are valid are exactly those below it. |
| CompactSplineCache.CompactSpline.GetSplineParameterIndex | src/CacheManager/src/WeightCompactSpline.cpp:191-199 | Returns `ParameterIndex` of the current layout. |
| CompactSplineCache.CompactSpline.GetSplineParameter | src/CacheManager/src/WeightCompactSpline.cpp:201-210 | Returns `ParameterLookup` over the parameter values. |
| CompactSplineCache.CompactSpline.GetSplineUpperBound | src/CacheManager/src/WeightCompactSpline.cpp:233-245 | Returns `UpperBound` of the current layout. |
| CompactSplineCache.CompactSpline.GetSplineLowerClamp | src/CacheManager/src/WeightCompactSpline.cpp:247-256 | Returns `ParameterLookup` over the lower clamps. |
| CompactSplineCache.CompactSpline.GetSplineUpperClamp | src/CacheManager/src/WeightCompactSpline.cpp:258-267 | Returns `ParameterLookup` over the upper clamps. |
| CompactSplineCache.CompactSpline.GetSplineKnotCount | src/CacheManager/src/WeightCompactSpline.cpp:212-220 | Returns `KnotCount` of the current layout. |
| CompactSplineCache.CompactSpline.GetSplineLowerBound | src/CacheManager/src/WeightCompactSpline.cpp:222-231 | Returns `LowerBound` of the current layout. |
| CompactSplineCache.CompactSpline.GetSplineKnot | src/CacheManager/src/WeightCompactSpline.cpp:269-285 | Returns `Knot` of the current layout. |
| CompactSplineCache.CompactSpline.Apply | src/CacheManager/src/WeightCompactSpline.cpp:379-406 | Returns true exactly when a spline is in use. The weights become `Applied` over the spline values; with no spline in use nothing changes. |
| PhysicsEvents.FindFromMeaning | src/fitsamples/src/PhysicsEvent.cpp:97-101 | The search loop finds the first matching name below min(leaf count, name count). With no match it ends at -1, or with out_of_range when the name list is shorter than the leaf list. |
| PhysicsEvents.LeafLookup | src/fitsamples/src/PhysicsEvent.cpp:95-106 | A null name list throws. Otherwise the result is the smallest matching index among the hooked leaves. With no match it is -1 when not asked to throw and LeafNotFound when asked; out_of_range when the name list runs out first. Each case holds in both directions. |
| PhysicsEvents.VarAsDouble | src/fitsamples/src/PhysicsEvent.cpp:111-114 | A value is returned only for a name that matches a hooked leaf. It is that leaf's value at the array index, so an unknown name always fails. |
| PhysicsEvents.PhysicsEvent.constructor | src/fitsamples/src/PhysicsEvent.cpp:13-25 | A new event is in its reset state: null name list, no leaves, data set -1, all three weights 1. |
| PhysicsEvents.PhysicsEvent.Reset | src/fitsamples/src/PhysicsEvent.cpp:16-25 | Name list null, leaves cleared, data set -1 and all three weights 1. The entry index and the dial pointers are kept. |
| PhysicsEvents.PhysicsEvent.SetLeafNameList | src/fitsamples/src/PhysicsEvent.cpp:27-29 | Only the name-list pointer changes. |
| PhysicsEvents.PhysicsEvent.SetDataSetIndex | src/fitsamples/src/PhysicsEvent.cpp:30-32 | Only the data-set index changes, and it reads back as the value set. |
| PhysicsEvents.PhysicsEvent.SetEntryIndex | src/fitsamples/src/PhysicsEvent.cpp:33-35 | Only the entry index changes. |
| PhysicsEvents.PhysicsEvent.SetTreeWeight | src/fitsamples/src/PhysicsEvent.cpp:36-38 | Only the tree weight changes. |
| PhysicsEvents.PhysicsEvent.SetNominalWeight | src/fitsamples/src/PhysicsEvent.cpp:39-41 | Only the nominal weight changes. |
| PhysicsEvents.PhysicsEvent.SetEventWeight | src/fitsamples/src/PhysicsEvent.cpp:42-44 | Only the event weight changes. |
| PhysicsEvents.PhysicsEvent.AddEventWeight | src/fitsamples/src/PhysicsEvent.cpp:88-90 | The event weight is multiplied by w. The tree and nominal weights and every other field are unchanged. |
| PhysicsEvents.PhysicsEvent.ResetEventWeight | src/fitsamples/src/PhysicsEvent.cpp:91-93 | The event weight becomes the nominal weight, and nothing else changes. |
| PhysicsEvents.PhysicsEvent.FindVarIndex | src/fitsamples/src/PhysicsEvent.cpp:95-106 | The loop returns exactly `LeafLookup` of the event's name list and leaf count. |
| PhysicsEvents.PhysicsEvent.GetVarAsDouble | src/fitsamples/src/PhysicsEvent.cpp:111-114 | Returns exactly `VarAsDouble` of the event's leaves. |
| PhysicsEvents.PhysicsEvent.Copy | src/FitSamples/src/FitSampleSet.cpp:166 | The element copy of a `std::vector<PhysicsEvent>` assignment: a new event with every field equal. |
| FitSamples.WithLeafName | src/FitSamples/src/FitSampleSet.cpp:43-47 | The name is in the result, and the result holds exactly the old names plus this one. It is unchanged when the name was present; otherwise the name is appended at the end. |
| FitSamples.WithLeafNameKeepsNoDuplicates | src/FitSamples/src/FitSampleSet.cpp:43-47 | Registering a name keeps the list free of duplicates. |
| FitSamples.WithLeafNameIdempotent | src/FitSamples/src/FitSampleSet.cpp:43-47 | A second registration of the same name is a no-op. |
| FitSamples.EnabledSamples | src/FitSamples/src/FitSampleSet.cpp:61-72 | At most one sample per configuration. |
| FitSamples.EnabledSamplesAppend | src/FitSamples/src/FitSampleSet.cpp:63-72 | The filter works configuration by configuration, in order: the samples of a + b are those of a followed by those of b. |
| FitSamples.EnabledSampleFromConfig | src/FitSamples/src/FitSampleSet.cpp:63-72 | An enabled configuration (isEnabled true or absent) yields a sample with its name. |
| FitSamples.EnabledSampleHasConfig | src/FitSamples/src/FitSampleSet.cpp:63-72 | Every appended sample comes from an enabled configuration with its name. |
| FitSamples.EnabledSamplesNames | src/FitSamples/src/FitSampleSet.cpp:63-72 | A sample with a given name is appended if and only if some enabled configuration carries that name. |
| FitSamples.EnabledSamplesAllEnabled | src/FitSamples/src/FitSampleSet.cpp:63-72 | With every configuration enabled, exactly one sample per configuration is appended, in configuration order. |
| FitSamples.TotalLlhAppend | src/FitSamples/src/FitSampleSet.cpp:137-153 | The likelihood of a concatenation of sample lists is the sum of their likelihoods. |
| FitSamples.TotalLlhNonNegative | src/FitSamples/src/FitSampleSet.cpp:137-153 | A per-bin likelihood that is never negative gives a total that is never negative. |
| FitSamples.BinsLlhNonNegative | src/FitSamples/src/FitSampleSet.cpp:142-148 | The same, for the bins of one sample. |
| FitSamples.FitSampleSet.constructor | src/FitSamples/src/FitSampleSet.cpp:20-33 | A new set is reset: not initialised, no config, no likelihood, no sample, data type Unset, no leaf name. |
| FitSamples.FitSampleSet.Reset | src/FitSamples/src/FitSampleSet.cpp:23-33 | Not initialised, config cleared, likelihood null, sample and leaf lists empty, data type Unset. |
| FitSamples.FitSampleSet.AddEventByEventDialLeafName | src/FitSamples/src/FitSampleSet.cpp:43-47 | The leaf list becomes `WithLeafName` of the old one and stays duplicate-free. Nothing else changes. |
| FitSamples.FitSampleSet.Initialize | src/FitSamples/src/FitSampleSet.cpp:49-72 | An empty config throws and changes nothing. Otherwise the data type comes from the config, `EnabledSamples` of the configured list is appended to the sample list in order, and the set is marked initialised with a likelihood. |
| FitSamples.FitSampleSet.Empty | src/FitSamples/src/FitSampleSet.cpp:134-136 | True exactly when there is no sample. |
| FitSamples.FitSampleSet.EvalLikelihood | src/FitSamples/src/FitSampleSet.cpp:137-153 | The double loop computes `TotalLlh`, the sum over samples of the sum over bins 1..N of llh(MC content, MC error, data content). It is 0 with no sample. |
| FitSamples.FitSampleSet.LoadAsimovData | src/FitSamples/src/FitSampleSet.cpp:157-177 | With data type Asimov, every sample's data events become fresh copies of its MC events, equal field by field and the same number. Otherwise the sample list is unchanged. Every other field is unchanged either way. |
| FitSamples.CopyEvents | src/FitSamples/src/FitSampleSet.cpp:166 | One fresh event per event, in order, with equal fields. |
| FitSamples.CopyMcEventsToData | src/FitSamples/src/FitSampleSet.cpp:160-175 | Only the data event lists change. Each becomes fresh copies of its sample's MC events. |
| Partition.StrideStart | src/ErrorPropagator/src/Propagator.cpp:403-421 | Worker -1 starts at event 0, and any other worker at its own id. |
| Partition.StrideStep | src/ErrorPropagator/src/Propagator.cpp:403-425 | Worker -1 steps by 1, and any other worker by the worker count. |
| Partition.StrideContents | src/ErrorPropagator/src/Propagator.cpp:421-426 | The stride loop visits exactly the indices start + k*step below the bound, each once and in increasing order. |
| Partition.StrideGap | src/ErrorPropagator/src/Propagator.cpp:423-426 | After a visited index, the next index on the stride is exactly one step further. |
| Partition.StepDown | src/ErrorPropagator/src/Propagator.cpp:423-426 | Past the start, being on the stride is the same as being on the stride from the next visited index. |
| Partition.StrideMatchesOwner | src/ErrorPropagator/src/Propagator.cpp:421-426 | For a worker id in [0, n), the stride of reweightSampleEvents picks exactly the indices i with i % n == id. |
| Partition.ExactlyOneOwner | src/ErrorPropagator/src/Propagator.cpp:481-483 | Every index has exactly one owning worker among 0..n-1: i % n. |
| Partition.StridesPartition | src/ErrorPropagator/src/Propagator.cpp:419-427 | The strides of workers 0..n-1 cover every event below the bound, and each event lies on one stride only. |
| Partition.MinusOneWorker | src/ErrorPropagator/src/Propagator.cpp:404-408 | Worker -1 owns no index under the dial-cache ownership test. Under the reweight stride it visits every index. |
| DialCache.FindDialSet | src/ErrorPropagator/src/Propagator.cpp:466 | A dial set is found exactly when the parameter has one for that data-set name. |
| DialCache.Resized | src/ErrorPropagator/src/Propagator.cpp:329 | The list gets the requested length. Entries below the old length are kept and new entries are null. |
| DialCache.ParameterCandidates | src/ErrorPropagator/src/Propagator.cpp:464-469 | Every listed candidate is an enabled parameter whose dial set for the data set exists and is non-empty. It carries that dial set, and candidates keep parameter order. |
| DialCache.ParameterCandidatesComplete | src/ErrorPropagator/src/Propagator.cpp:464-469 | Every such parameter is listed. |
| DialCache.CandidateGroupsUpTo | src/ErrorPropagator/src/Propagator.cpp:461-471 | One group per enabled parameter set that has a candidate, in parameter-set order. Each group carries that set's mode and its candidates. |
| DialCache.Written | src/ErrorPropagator/src/Propagator.cpp:513 | The assigned pointers occupy offsets 0..\|refs\|-1 in order, and every later entry is unchanged. |
| DialCache.FirstDialFromMeaning | src/ErrorPropagator/src/Propagator.cpp:502-516 | The dial found is one whose condition bin holds the event, and every dial before it fails the bin test. When none is found, every dial fails. |
| DialCache.CandidatesFromSize | src/ErrorPropagator/src/Propagator.cpp:491-522 | A dial set assigns at most one dial. A group therefore assigns at most one pointer in one-parameter-per-event mode, and otherwise at most one per candidate. |
| DialCache.CandidatesFromSources | src/ErrorPropagator/src/Propagator.cpp:491-516 | Every pointer a group assigns names the group's parameter set and the data set. It comes from a candidate whose dial set matched the event with that dial. |
| DialCache.CandidatesFromOrdered | src/ErrorPropagator/src/Propagator.cpp:491-516 | The pointers of a group follow strictly increasing parameters, so no dial set contributes twice. |
| DialCache.CandidatesFromComplete | src/ErrorPropagator/src/Propagator.cpp:512-516 | Outside one-parameter-per-event mode, every candidate whose dial set matched contributes its dial. |
| DialCache.CandidatesFromOnlyOne | src/ErrorPropagator/src/Propagator.cpp:518-520 | In one-parameter-per-event mode, a group assigns nothing exactly when no candidate matched. Otherwise it assigns the single dial of the first candidate that matched. |
| DialCache.GroupsFromFits | src/ErrorPropagator/src/Propagator.cpp:490-523 | The pointers of all groups fit in the slots the groups count. |
| DialCache.CandidateSlotsWithinPreSize | src/ErrorPropagator/src/Propagator.cpp:321-330 | For any data set, the candidate groups need no more slots than initializeCaches reserves. |
| DialCache.AssignmentFitsPreSize | src/ErrorPropagator/src/Propagator.cpp:321-330 | The unchecked write at `eventDialOffset++` never runs past a dial list of the pre-size, whatever the data set and the event. |
| DialCache.FormulaZeroSkips | src/ErrorPropagator/src/Propagator.cpp:495-499 | A dial set whose formula evaluates to 0 for the event assigns nothing, whatever its dials. |
| ResponseFunctions.OwnsBinExactlyOne | src/ErrorPropagator/src/Propagator.cpp:537-538 | Every bin b has exactly one owning worker among 0..n-1: b % n. |
| ResponseFunctions.Deviation | src/ErrorPropagator/src/Propagator.cpp:365-370 | Every deviation bin has error 0, and nominal * (deviation + 1) gives back the varied content. |
| ResponseFunctions.RfValueNext | src/ErrorPropagator/src/Propagator.cpp:547-561 | One more parameter leaves the bin unchanged at distance 0 and multiplies it by (1 + x*rf) otherwise. |
| ResponseFunctions.RfValueIsProduct | src/ErrorPropagator/src/Propagator.cpp:534-564 | The rebuilt bin equals the nominal content times the product over parameters of their factors. The factor is 1 at distance 0 and (1 + x*rf) otherwise. |
| ResponseFunctions.RfValueAtNominal | src/ErrorPropagator/src/Propagator.cpp:547-548 | With every parameter at its nominal value, the rebuilt bin is the nominal content. |
| ResponseFunctions.RfValueReproducesVariation | src/ErrorPropagator/src/Propagator.cpp:359-369 | One parameter at +1 sigma, all others at nominal, reproduces the varied content its deviation was built from. |
| ResponseFunctions.RfValueExtend | src/ErrorPropagator/src/Propagator.cpp:547-561 | Appending one parameter's distance extends the rebuilt bin by that parameter's factor. |
| ResponseFunctions.ListDistances | src/ErrorPropagator/src/Propagator.cpp:545-547 | One distance per parameter of the set. |
| ResponseFunctions.DistancesAt | src/ErrorPropagator/src/Propagator.cpp:543-547 | The running counter iPar numbers the parameters across sets in order, enabled or not. |
| ResponseFunctions.RfHistogram | src/ErrorPropagator/src/Propagator.cpp:534-579 | Each bin's content is nominal times the product of the factors of every parameter, and its error is the square root of that content. |
| ResponseFunctions.RfValuesAreProducts | src/ErrorPropagator/src/Propagator.cpp:534-564 | RfValueIsProduct, for every bin of a histogram. |
| ResponseFunctions.ResetBins | src/ErrorPropagator/src/Propagator.cpp:534-541 | Every bin the worker owns takes its nominal content. Other bins and all errors are unchanged. |
| ResponseFunctions.ScaleBins | src/ErrorPropagator/src/Propagator.cpp:555-561 | Every bin the worker owns is multiplied by (1 + x*rf[bin]). Other bins and all errors are unchanged. |
| ResponseFunctions.SetBinErrors | src/ErrorPropagator/src/Propagator.cpp:566-579 | Every bin the worker owns gets the square root of its content as its error. Contents are unchanged. |
| ResponseFunctions.ApplyParameter | src/ErrorPropagator/src/Propagator.cpp:550-562 | One parameter's scaling is applied to every sample's histogram, with that sample's deviation. |
| ResponseFunctions.PartlyRebuiltNext | src/ErrorPropagator/src/Propagator.cpp:547-562 | Skipping a parameter at distance 0, or scaling by a non-zero one, rebuilds the owned bins over one more parameter. |
| ResponseFunctions.ApplyParameters | src/ErrorPropagator/src/Propagator.cpp:543-564 | After the parameter loops, the owned bins are rebuilt over every parameter's distance, in parameter-set order. |
| ResponseFunctions.ApplyParameterSet | src/ErrorPropagator/src/Propagator.cpp:545-563 | One set's parameters are applied in order. iPar ends at the number of parameters seen so far minus one. |
| ResponseFunctions.ApplyResponseFunctionsOn | src/ErrorPropagator/src/Propagator.cpp:529-579 | The bins the worker owns, content and error, become those of `RfHistogram`; the other bins are left as they were. |
| ResponseFunctions.RebuiltNext | src/ErrorPropagator/src/Propagator.cpp:537-571 | Worker t adds its own bins to those the workers before it rebuilt. |
| ResponseFunctions.RebuiltAll | src/ErrorPropagator/src/Propagator.cpp:537-571 | Once workers 0..n-1 have run, every bin is rebuilt: the histogram is `RfHistogram`. |
| Propagation.ReweightList | src/ErrorPropagator/src/Propagator.cpp:420-426 | The events on the stride get the reweighted event weight. Every other event, and every other field, is unchanged. |
| Propagation.ResizeDialLists | src/ErrorPropagator/src/Propagator.cpp:322-330 | Every event's dial list becomes `Resized` to the pre-size, and nothing else changes. |
| Propagation.EvalInBin | src/ErrorPropagator/src/Propagator.cpp:501-511 | The variable loop computes `InBin`: every variable lies between its edges, a variable outside ends the test, and a missing leaf fails. |
| Propagation.FindFirstDial | src/ErrorPropagator/src/Propagator.cpp:502-516 | The dial loop computes the first dial whose bin holds the event. |
| Propagation.FillGroup | src/ErrorPropagator/src/Propagator.cpp:492-522 | Writes a group's assigned pointers from the running offset on, and advances the offset by their number. A failing leaf lookup is reported. Only the dial list changes. |
| Propagation.FillEventDialCache | src/ErrorPropagator/src/Propagator.cpp:488-523 | The event's dial list gets `AssignEvent` written from offset 0 and keeps its length. Nothing else in the event changes. |
| Propagation.Assigned | src/ErrorPropagator/src/Propagator.cpp:490-523 | The dials an event is assigned always fit in the pre-size. |
| Propagation.DialListStep | src/ErrorPropagator/src/Propagator.cpp:479-523 | The pass over one data set keeps the list's length, and leaves unchanged every event it does not visit. |
| Propagation.DialListAfter | src/ErrorPropagator/src/Propagator.cpp:459-526 | The passes over data sets 0..d-1 keep the list's length. |
| Propagation.FillSampleEvents | src/ErrorPropagator/src/Propagator.cpp:479-524 | On success every event's dial list is `DialListStep` of its old one. On failure some event's step fails with that error. Nothing but dial lists changes. |
| Propagation.FillDataSet | src/ErrorPropagator/src/Propagator.cpp:459-526 | The pass over data set d, over every sample. On success every event's list is as after the passes 0..d; on failure some event fails a pass. |
| Propagation.FillSampleDataSet | src/ErrorPropagator/src/Propagator.cpp:473-525 | One sample of the pass over data set d. Samples not holding the data set are skipped, and other samples' events are untouched. |
| Propagation.BuildCandidateGroups | src/ErrorPropagator/src/Propagator.cpp:461-471 | The loops computing `dialSetPtrMap` compute `CandidateGroups`. |
| Propagation.BuildParameterCandidates | src/ErrorPropagator/src/Propagator.cpp:464-470 | The inner loop computes `ParameterCandidates`. |
| Propagation.FillDialCaches | src/ErrorPropagator/src/Propagator.cpp:447-528 | fillEventDialCaches(iThread): on success every MC event's dial list is as after the passes over all data sets, and on failure some event fails one. Only dial lists change. |
| Propagation.Propagator.constructor | src/ErrorPropagator/src/Propagator.cpp:24-48 | No response function in use or enabled, and no nominal or deviation histograms. |
| Propagation.Propagator.PreventRfPropagation | src/ErrorPropagator/src/Propagator.cpp:269-274 | The flag is false afterwards, and nothing else changes. |
| Propagation.Propagator.AllowRfPropagation | src/ErrorPropagator/src/Propagator.cpp:275-280 | The flag is true afterwards, and nothing else changes. |
| Propagation.Propagator.UsesResponseFunctions | src/ErrorPropagator/src/Propagator.cpp:244-250 | Response functions are used exactly when they are both configured and enabled. |
| Propagation.Propagator.ComputePreSize | src/ErrorPropagator/src/Propagator.cpp:320-328 | The loop computes `PreSize`: 1 per one-parameter-per-event set plus the parameter count of every other set. |
| Propagation.Propagator.InitializeCaches | src/ErrorPropagator/src/Propagator.cpp:317-334 | Every MC event's dial list is resized to the pre-size, and nothing else changes. |
| Propagation.Propagator.ReweightSampleEvents | src/ErrorPropagator/src/Propagator.cpp:402-427 | Worker iThread reweights exactly the MC events on its stride in every sample; worker -1 reweights all of them. Nothing else changes. |
| Propagation.Propagator.FillEventDialCaches | src/ErrorPropagator/src/Propagator.cpp:447-528 | `FillDialCaches` over this propagator's parameter sets, data sets and samples. |
| Propagation.Propagator.ApplyResponseFunctions | src/ErrorPropagator/src/Propagator.cpp:529-579 | In every sample's MC histogram, the bins the worker owns become those of `RfHistogram`. The samples change in their MC histograms only. |
| Propagation.Propagator.ReweightAllWorkers | src/ErrorPropagator/src/Propagator.cpp:253-257 | Running workers 0..n-1 reweights every MC event exactly once. |
| Propagation.Propagator.ApplyAllWorkers | src/ErrorPropagator/src/Propagator.cpp:263-267 | Running workers 0..n-1 makes every MC histogram the rebuilt one, and nothing else in the samples changes. |
| Propagation.Propagator.RefillSampleHistograms | src/ErrorPropagator/src/Propagator.cpp:258-262 | Every sample's MC and data histograms become the refill of their container over the current states of its events. The event lists and the rest of each sample are kept. |
| Propagation.Propagator.PropagateParametersOnSamples | src/ErrorPropagator/src/Propagator.cpp:242-252 | Without response functions, or with them disabled, every MC event is reweighted once, and then every MC and data histogram is refilled from the reweighted events. Otherwise every MC histogram is rebuilt and no event changes. |

## Left out

- `CalculateCompactSpline`, `CacheAtomicMult`, the hemi kernel launch, the GPU/host copies and the `CACHE_MANAGER_SLOW_VALIDATION` branches: the spline value is a parameter (`SplineEvaluator`), and the kernel runs as a sequential loop. Atomic multiplication in any order is modelled as multiplication in spline order.
- `CompactSpline::FindPoints`, `GetSplinesReserved` and the memory-size accounting: trivial or reporting only. Allocation failure (`bad_alloc`) is not modelled.
- Floating point: doubles are reals. Rounding, infinities and NaN are outside the model, so the following are parameters or exclusions:
  - `TMath::Sqrt` is a parameter.
  - The deviation of a bin whose nominal content is 0 is excluded by `Deviation`'s precondition.
  - `GetSplineUpperBound` with a zero inverse step is reported as `None`.
- CompactSplineCache.CompactSpline.SetSplineKnot: implements the checked version. The never-throwing one the source has is modelled only on values (`SplineLayout.SetKnotAsWritten`); see Findings.
- Out-of-bounds indexing in C++ (unchecked `[]`, undefined behaviour) becomes a precondition: `SetKnotAsWritten`, the dial-cache offsets and counts (`DialCacheIndexable`), matching histogram sizes (`RfReady`, `BinningsAgree`), and the two preconditions of `CompactSpline.Apply` below.
- CompactSplineCache.CompactSpline.Apply: requires every stored parameter index to address the parameter array (`ParametersAddressable`) and both clamp arrays to be as long as the parameter array. The kernel reads `params[pIndex[i]]`, `lowerClamp[pIndex[i]]` and `upperClamp[pIndex[i]]` unchecked, and the constructor takes the clamp buffers without a size check. Once a parameter index in [32768, 65535] has been added, its wrapped `short` makes the kernel read out of bounds. That case, and clamp buffers shorter than the parameters, lie outside Apply's contract.
- CompactSplineCache.CompactSpline.GetSplineKnot and the other accessors, `SetSplineKnot` and `Apply` require the build invariant. After a caught AddSpline throw the source's accessors may read index entries never written; the model states them only on a cache built without a throw since the last Reset.
- CompactSplineCache.CompactSpline.Reset: the call to `Cache::Weight::Base::Reset()` that comes first is not modelled. The base class is not part of this model. Only the two counters are reset.
- Threads: `GlobalVariables::getParallelWorker()` (`addJob`, `runJob`, `setPostParallelJob`) and real concurrency are not modelled. Each worker body is a method taking the worker id, and `ReweightAllWorkers` / `ApplyAllWorkers` run the workers one after another.
- Integer widths: the model does not capture overflow of the 32-bit `int` counters and offsets, or the `size_t` event indices of the dial-cache loop. Only the `short` parameter store is wrapped.
- `reweightUsingDialCache`: the new event weight is a parameter (`Reweight`) of the event's fields.
- `SampleElement::refillHistogram` and the post-parallel rescale (src/ErrorPropagator/src/Propagator.cpp:296-309) are not part of this model: `RefillSampleHistograms` takes the refilled histogram of a container as a parameter (`Refill`) of the container and its events' states, and applies it sample by sample, MC then data.
- `Propagator::initialize`, `reset`, `setConfig`, `initializeThreads`, `makeResponseFunctions`: config reading, covariance-matrix writes, the plot generator, random parameter throws, ROOT histogram cloning and file writes. The deviation step of `makeResponseFunctions` is modelled (`Deviation`) with the properties its use relies on.
- The common leaf-name list `_commonLeafNameListPtr_` is one list shared by every event that points to it. The model copies it into each event as a value, so that aliasing is not captured: a change to the shared list is not seen by the events.
- `PhysicsEvent::hookToTree`, `fetchValue`, `getSummary`, `print` and `operator<<`: ROOT tree I/O and printing. The getters are the class's fields, which every setter's contract pins down.
- `FitSampleSet::setConfig` (JSON), `applyStatFluctOnData` (random Poisson draws), and the job registrations in `initialize` and the `update*` methods: each uses JSON, randomness or the parallel worker. `FitSample::setConfig`/`initialize` are not part of this model, so a new sample carries only its configured name.
- FitSamples.FitSampleSet.Initialize: reads the data type as an already parsed value (`SetConfig`). `DataEventTypeEnumNamespace::toEnum` is not modelled. The `statFluctuation` flag is not modelled either: the model has no such field, because `applyStatFluctOnData`, its only user, is left out.
- FitSamples.FitSampleSet.Initialize: every `SampleConfig` carries a name. The source reads a disabled sample's name with `fetchValue<std::string>(fitSampleConfig, "name")`, which has no default. A disabled sample without a name therefore throws there, after the earlier enabled samples were already appended. The model does not capture that throw.
- `src/Fitter/src/MCMCInterface.cpp`, `src/Fitter/src/FitterEngine.cpp`, `src/Fitter/include/FitterEngine.h`, `src/Utils/include/GundamUtils.h` and the two declaration-only headers are not part of this model. They drive external minimisers and ROOT I/O.

## Findings

| source | as written | input that shows it | evidently intended | confidence | as-written member | corrected member |
|---|---|---|---|---|---|---|
| src/CacheManager/src/WeightCompactSpline.cpp:167-188 | Each range check constructs `std::runtime_error(...)` without `throw`, so the write at `fSplineIndex[s]+2+k` always happens. | Two splines of four values each (index table [0, 4, 8]). `SetSplineKnot(0, 2, 9.0)` passes the check at line 183, which only logs, and overwrites spline 1's lower bound (5.0 becomes 9.0). | Throw on an invalid spline or control-point index and write only an existing control point of the named spline. | not executed | SplineLayout.SetKnotAsWritten, SplineLayout.SetKnotAsWrittenExample, SplineLayout.SetKnotAsWrittenPastLastKnot | SplineLayout.SetKnot, SplineLayout.SetKnotRoundTrip, CompactSplineCache.CompactSpline.SetSplineKnot |

/** FitSampleSet: the list of fit samples, each with a Monte-Carlo and a
    data container, the data-event type, and the leaf names that
    event-by-event dials need.  Its list-building operations are specified
    by pure functions (WithLeafName, EnabledSamples, TotalLlh) whose
    properties are proved as lemmas. */
module FitSamples {
  import opened Outcomes
  import opened PhysicsEvents

  /** DataEventType: only Unset and Asimov matter to this model; every other
      value of the enumeration is carried by name. */
  datatype DataEventType = Unset | Asimov | OtherType(name: string)

  /** The one exception of this file: `initialize` on an empty config. */
  datatype SetError = ConfigNotSet

  /** A one-dimensional histogram: bin b (1 <= b <= number of bins) is held
      at index b - 1; the under- and overflow bins are not modelled. */
  datatype Histogram = Histogram(content: seq<real>, error: seq<real>)
  {
    function NbBins(): nat { |content| }

    predicate WellFormed() { |error| == |content| }
  }

  /** A sample container (SampleElement): its events, its histogram and, per
      data set, whether it is loaded, where its events start and the event
      bound the dial-cache loop uses. */
  datatype SampleElement = SampleElement(eventList: seq<PhysicsEvent>, histogram: Histogram,
                                         dataSetIndexList: seq<int>, eventOffSetList: seq<int>,
                                         eventNbList: seq<int>)

  datatype FitSample = FitSample(name: string, mc: SampleElement, data: SampleElement)

  /** A sample's configuration: its name and its optional "isEnabled" key. */
  datatype SampleConfig = SampleConfig(name: string, isEnabled: Option<bool>)

  /** The configuration `initialize` reads: the data-event type and the
      "fitSampleList" array. */
  datatype SetConfig = SetConfig(dataEventType: DataEventType, fitSampleList: seq<SampleConfig>)

  /** The per-bin likelihood (the PoissonLLH functor): MC content, MC error,
      data content. */
  type BinLikelihood = (real, real, real) -> real

  // ---------------------------------------------------------------------
  // Leaf names of event-by-event dials.

  /** No name occurs twice. */
  predicate NoDuplicates(names: seq<string>)
  {
    forall i, j :: 0 <= i < j < |names| ==> names[i] != names[j]
  }

  /** The list after addEventByEventDialLeafName(name). */
  function WithLeafName(names: seq<string>, name: string): (r: seq<string>)
    ensures name in r
    ensures forall x :: x in r <==> x in names || x == name
    ensures name in names ==> r == names
    ensures name !in names ==> r == names + [name]
  {
    if name in names then names else names + [name]
  }

  /** Registering a name keeps the list free of duplicates. */
  lemma WithLeafNameKeepsNoDuplicates(names: seq<string>, name: string)
    requires NoDuplicates(names)
    ensures NoDuplicates(WithLeafName(names, name))
  {
    var r := WithLeafName(names, name);
    if name !in names {
      forall i, j | 0 <= i < j < |r| ensures r[i] != r[j] {
        if j == |names| {
          assert r[i] == names[i];
        }
      }
    }
  }

  /** Registering the same name twice is the same as registering it once. */
  lemma WithLeafNameIdempotent(names: seq<string>, name: string)
    ensures WithLeafName(WithLeafName(names, name), name) == WithLeafName(names, name)
  {
  }

  // ---------------------------------------------------------------------
  // Enabled-sample filter (initialize).

  /** fetchValue(config, "isEnabled", true). */
  function IsEnabled(c: SampleConfig): bool
  {
    match c.isEnabled
    case None => true
    case Some(b) => b
  }

  function EmptyElement(): SampleElement
  {
    SampleElement([], Histogram([], []), [], [], [])
  }

  /** The sample `initialize` appends for configuration `c`: FitSample's
      own setConfig/initialize are not part of this model, so the new
      sample carries the configured name and empty containers. */
  function NewSample(c: SampleConfig): FitSample
  {
    FitSample(c.name, EmptyElement(), EmptyElement())
  }

  /** The samples appended for the configurations `cs`, in order. */
  function EnabledSamples(cs: seq<SampleConfig>): (r: seq<FitSample>)
    ensures |r| <= |cs|
  {
    if cs == [] then []
    else
      var last := cs[|cs| - 1];
      EnabledSamples(cs[..|cs| - 1]) + (if IsEnabled(last) then [NewSample(last)] else [])
  }

  /** The filter works configuration by configuration: the samples of a
      concatenation are the samples of the first part followed by those of
      the second, so the configured order is kept. */
  lemma {:induction false} EnabledSamplesAppend(a: seq<SampleConfig>, b: seq<SampleConfig>)
    ensures EnabledSamples(a + b) == EnabledSamples(a) + EnabledSamples(b)
    decreases |b|
  {
    if b == [] {
      assert a + b == a;
    } else {
      var b' := b[..|b| - 1];
      assert (a + b)[..|a + b| - 1] == a + b';
      EnabledSamplesAppend(a, b');
    }
  }

  /** An enabled configuration yields a sample with its name. */
  lemma {:induction false} EnabledSampleFromConfig(cs: seq<SampleConfig>, name: string, j: int)
    requires 0 <= j < |cs| && cs[j].name == name && IsEnabled(cs[j])
    ensures exists k :: 0 <= k < |EnabledSamples(cs)| && EnabledSamples(cs)[k].name == name
  {
    var init := cs[..|cs| - 1];
    var r := EnabledSamples(cs);
    assert r == EnabledSamples(init) + (if IsEnabled(cs[|cs| - 1]) then [NewSample(cs[|cs| - 1])] else []);
    if j == |cs| - 1 {
      assert r[|r| - 1].name == name;
    } else {
      assert init[j] == cs[j];
      EnabledSampleFromConfig(init, name, j);
      var k :| 0 <= k < |EnabledSamples(init)| && EnabledSamples(init)[k].name == name;
      assert r[k] == EnabledSamples(init)[k];
    }
  }

  /** Every sample comes from an enabled configuration with its name. */
  lemma {:induction false} EnabledSampleHasConfig(cs: seq<SampleConfig>, name: string, k: int)
    requires 0 <= k < |EnabledSamples(cs)| && EnabledSamples(cs)[k].name == name
    ensures exists j :: 0 <= j < |cs| && cs[j].name == name && IsEnabled(cs[j])
  {
    var init := cs[..|cs| - 1];
    var r := EnabledSamples(cs);
    assert r == EnabledSamples(init) + (if IsEnabled(cs[|cs| - 1]) then [NewSample(cs[|cs| - 1])] else []);
    if k < |EnabledSamples(init)| {
      assert EnabledSamples(init)[k] == r[k];
      EnabledSampleHasConfig(init, name, k);
      var j :| 0 <= j < |init| && init[j].name == name && IsEnabled(init[j]);
      assert cs[j] == init[j];
    } else {
      assert IsEnabled(cs[|cs| - 1]) && r[k] == NewSample(cs[|cs| - 1]);
    }
  }

  /** A sample with a given name is appended exactly when some enabled
      configuration carries that name. */
  lemma EnabledSamplesNames(cs: seq<SampleConfig>, name: string)
    ensures (exists k :: 0 <= k < |EnabledSamples(cs)| && EnabledSamples(cs)[k].name == name)
            <==> (exists j :: 0 <= j < |cs| && cs[j].name == name && IsEnabled(cs[j]))
  {
    if exists j :: 0 <= j < |cs| && cs[j].name == name && IsEnabled(cs[j]) {
      var j :| 0 <= j < |cs| && cs[j].name == name && IsEnabled(cs[j]);
      EnabledSampleFromConfig(cs, name, j);
    }
    if exists k :: 0 <= k < |EnabledSamples(cs)| && EnabledSamples(cs)[k].name == name {
      var k :| 0 <= k < |EnabledSamples(cs)| && EnabledSamples(cs)[k].name == name;
      EnabledSampleHasConfig(cs, name, k);
    }
  }

  /** With every sample enabled, one sample per configuration, in order. */
  lemma {:induction false} EnabledSamplesAllEnabled(cs: seq<SampleConfig>)
    requires forall j :: 0 <= j < |cs| ==> IsEnabled(cs[j])
    ensures |EnabledSamples(cs)| == |cs|
    ensures forall j :: 0 <= j < |cs| ==> EnabledSamples(cs)[j] == NewSample(cs[j])
  {
    if cs != [] {
      EnabledSamplesAllEnabled(cs[..|cs| - 1]);
    }
  }

  // ---------------------------------------------------------------------
  // Likelihood (evalLikelihood).

  /** MC and data histograms of every sample are well formed and share
      their binning. */
  predicate BinningsAgree(samples: seq<FitSample>)
  {
    forall s :: 0 <= s < |samples| ==>
      samples[s].mc.histogram.WellFormed() && samples[s].data.histogram.WellFormed()
      && samples[s].data.histogram.NbBins() == samples[s].mc.histogram.NbBins()
  }

  /** The sum over bins 1 .. k of the per-bin likelihood. */
  function BinsLlh(mc: Histogram, data: Histogram, llh: BinLikelihood, k: nat): real
    requires mc.WellFormed() && data.WellFormed() && data.NbBins() == mc.NbBins()
    requires k <= mc.NbBins()
  {
    if k == 0 then 0.0
    else BinsLlh(mc, data, llh, k - 1) + llh(mc.content[k - 1], mc.error[k - 1], data.content[k - 1])
  }

  /** The likelihood of one sample: all of its bins. */
  function SampleLlh(s: FitSample, llh: BinLikelihood): real
    requires s.mc.histogram.WellFormed() && s.data.histogram.WellFormed()
    requires s.data.histogram.NbBins() == s.mc.histogram.NbBins()
  {
    BinsLlh(s.mc.histogram, s.data.histogram, llh, s.mc.histogram.NbBins())
  }

  /** The sum over the samples of their likelihoods. */
  function TotalLlh(samples: seq<FitSample>, llh: BinLikelihood): real
    requires BinningsAgree(samples)
  {
    if samples == [] then 0.0
    else TotalLlh(samples[..|samples| - 1], llh) + SampleLlh(samples[|samples| - 1], llh)
  }

  /** The likelihood of a concatenation of sample lists is the sum of
      their likelihoods. */
  lemma {:induction false} TotalLlhAppend(a: seq<FitSample>, b: seq<FitSample>, llh: BinLikelihood)
    requires BinningsAgree(a) && BinningsAgree(b)
    ensures BinningsAgree(a + b)
    ensures TotalLlh(a + b, llh) == TotalLlh(a, llh) + TotalLlh(b, llh)
    decreases |b|
  {
    assert forall s :: 0 <= s < |a + b| ==> (a + b)[s] == if s < |a| then a[s] else b[s - |a|];
    if b == [] {
      assert a + b == a;
    } else {
      var b' := b[..|b| - 1];
      assert (a + b)[..|a + b| - 1] == a + b';
      TotalLlhAppend(a, b', llh);
    }
  }

  /** A per-bin likelihood that is never negative gives a total that is
      never negative. */
  lemma {:induction false} TotalLlhNonNegative(samples: seq<FitSample>, llh: BinLikelihood)
    requires BinningsAgree(samples)
    requires forall m, e, d :: llh(m, e, d) >= 0.0
    ensures TotalLlh(samples, llh) >= 0.0
  {
    if samples != [] {
      TotalLlhNonNegative(samples[..|samples| - 1], llh);
      var s := samples[|samples| - 1];
      BinsLlhNonNegative(s.mc.histogram, s.data.histogram, llh, s.mc.histogram.NbBins());
    }
  }

  lemma {:induction false} BinsLlhNonNegative(mc: Histogram, data: Histogram, llh: BinLikelihood, k: nat)
    requires mc.WellFormed() && data.WellFormed() && data.NbBins() == mc.NbBins()
    requires k <= mc.NbBins()
    requires forall m, e, d :: llh(m, e, d) >= 0.0
    ensures BinsLlh(mc, data, llh, k) >= 0.0
  {
    if k > 0 {
      BinsLlhNonNegative(mc, data, llh, k - 1);
    }
  }

  // ---------------------------------------------------------------------
  // Events.

  /** No MC event object is shared between two positions of the sample
      list (C++ vectors hold their events by value). */
  ghost predicate DistinctMcEvents(samples: seq<FitSample>)
  {
    forall s, t, i, j ::
      0 <= s < |samples| && 0 <= t < |samples| &&
      0 <= i < |samples[s].mc.eventList| && 0 <= j < |samples[t].mc.eventList| &&
      (s != t || i != j)
      ==> samples[s].mc.eventList[i] != samples[t].mc.eventList[j]
  }

  /** The sample list after loadAsimovData: sample `s` is `old[s]` with its
      data events replaced by `copies[s]`. */
  ghost predicate DataEventsReplaced(old_: seq<FitSample>, new_: seq<FitSample>)
  {
    |new_| == |old_| &&
    forall s :: 0 <= s < |new_| ==>
      new_[s] == old_[s].(data := old_[s].data.(eventList := new_[s].data.eventList))
  }

  // ---------------------------------------------------------------------
  // The set.

  class FitSampleSet {
    var isInitialized: bool
    var config: Option<SetConfig>          // None: the empty json
    var likelihoodSet: bool                // _likelihoodFunctionPtr_ != nullptr
    var fitSampleList: seq<FitSample>
    var dataEventType: DataEventType
    var eventByEventDialLeafList: seq<string>
    var dataSetList: seq<string>           // data set names, filled by the loader

    /** The default constructor runs reset. */
    constructor ()
      ensures !isInitialized && config == None && !likelihoodSet
      ensures fitSampleList == [] && dataEventType == Unset
      ensures eventByEventDialLeafList == [] && dataSetList == []
    {
      isInitialized := false;
      config := None;
      likelihoodSet := false;
      fitSampleList := [];
      dataEventType := Unset;
      eventByEventDialLeafList := [];
      dataSetList := [];
    }

    /** reset: not initialised, no config, no likelihood, no sample, data
        type Unset, no leaf name; the data sets are not touched. */
    method Reset()
      modifies this
      ensures !isInitialized && config == None && !likelihoodSet
      ensures fitSampleList == [] && dataEventType == Unset && eventByEventDialLeafList == []
      ensures dataSetList == old(dataSetList)
    {
      isInitialized := false;
      config := None;
      likelihoodSet := false;
      fitSampleList := [];
      dataEventType := Unset;
      eventByEventDialLeafList := [];
    }

    /** addEventByEventDialLeafName: appends the name unless present. */
    method AddEventByEventDialLeafName(name: string)
      modifies this
      ensures eventByEventDialLeafList == WithLeafName(old(eventByEventDialLeafList), name)
      ensures NoDuplicates(old(eventByEventDialLeafList)) ==> NoDuplicates(eventByEventDialLeafList)
      ensures fitSampleList == old(fitSampleList) && dataEventType == old(dataEventType)
      ensures isInitialized == old(isInitialized) && config == old(config)
      ensures likelihoodSet == old(likelihoodSet) && dataSetList == old(dataSetList)
    {
      if name !in eventByEventDialLeafList {
        eventByEventDialLeafList := eventByEventDialLeafList + [name];
      }
      if NoDuplicates(old(eventByEventDialLeafList)) {
        WithLeafNameKeepsNoDuplicates(old(eventByEventDialLeafList), name);
      }
    }

    /** initialize: throws on an empty config and changes nothing; otherwise
        takes the data type from the config, appends a sample for each
        enabled sample configuration in order, sets the likelihood and
        marks the set initialised. */
    method Initialize() returns (outcome: Outcome<SetError>)
      modifies this
      ensures old(config).None? ==> outcome == Fail(ConfigNotSet) && unchanged(this)
      ensures old(config).Some? ==>
                && outcome == Pass
                && dataEventType == old(config).value.dataEventType
                && fitSampleList == old(fitSampleList) + EnabledSamples(old(config).value.fitSampleList)
                && likelihoodSet && isInitialized
                && config == old(config) && eventByEventDialLeafList == old(eventByEventDialLeafList)
                && dataSetList == old(dataSetList)
    {
      if config.None? {
        return Fail(ConfigNotSet);
      }
      dataEventType := config.value.dataEventType;
      var cs := config.value.fitSampleList;
      ghost var before := fitSampleList;
      var i := 0;
      while i < |cs|
        invariant 0 <= i <= |cs|
        invariant fitSampleList == before + EnabledSamples(cs[..i])
        invariant config == old(config) && dataEventType == old(config).value.dataEventType
        invariant eventByEventDialLeafList == old(eventByEventDialLeafList) && dataSetList == old(dataSetList)
      {
        assert cs[..i + 1][..i] == cs[..i];
        if IsEnabled(cs[i]) {
          fitSampleList := fitSampleList + [NewSample(cs[i])];
        }
        i := i + 1;
      }
      assert cs[..|cs|] == cs;
      likelihoodSet := true;
      isInitialized := true;
      return Pass;
    }

    /** empty: exactly when there is no sample. */
    function Empty(): (b: bool)
      reads this
      ensures b <==> |fitSampleList| == 0
    {
      |fitSampleList| == 0
    }

    /** evalLikelihood: the sum over samples, then over bins 1 .. N of the
        MC histogram, of the per-bin likelihood of MC content, MC error and
        data content.  The likelihood pointer is only dereferenced when some
        sample has a bin. */
    method EvalLikelihood(llh: BinLikelihood) returns (r: real)
      requires BinningsAgree(fitSampleList)
      requires likelihoodSet || forall s :: 0 <= s < |fitSampleList| ==> fitSampleList[s].mc.histogram.NbBins() == 0
      ensures r == TotalLlh(fitSampleList, llh)
      ensures fitSampleList == [] ==> r == 0.0
    {
      r := 0.0;
      var s := 0;
      while s < |fitSampleList|
        invariant 0 <= s <= |fitSampleList|
        invariant r == TotalLlh(fitSampleList[..s], llh)
      {
        var sample := fitSampleList[s];
        var mc, data := sample.mc.histogram, sample.data.histogram;
        var sampleLlh := 0.0;
        var b := 1;
        while b <= mc.NbBins()
          invariant 1 <= b <= mc.NbBins() + 1
          invariant sampleLlh == BinsLlh(mc, data, llh, b - 1)
        {
          sampleLlh := sampleLlh + llh(mc.content[b - 1], mc.error[b - 1], data.content[b - 1]);
          b := b + 1;
        }
        assert fitSampleList[..s + 1][..s] == fitSampleList[..s];
        r := r + sampleLlh;
        s := s + 1;
      }
      assert fitSampleList[..s] == fitSampleList;
    }

    /** loadAsimovData: with data type Asimov, every sample's data events
        become copies of its MC events (new objects with equal fields);
        otherwise nothing changes. */
    method LoadAsimovData()
      modifies this
      ensures dataEventType != Asimov ==> fitSampleList == old(fitSampleList)
      ensures DataEventsReplaced(old(fitSampleList), fitSampleList)
      ensures dataEventType == Asimov ==>
                forall s, j :: 0 <= s < |fitSampleList| && 0 <= j < |fitSampleList[s].mc.eventList| ==>
                  j < |fitSampleList[s].data.eventList| &&
                  fresh(fitSampleList[s].data.eventList[j]) &&
                  fitSampleList[s].data.eventList[j].State() == fitSampleList[s].mc.eventList[j].State()
      ensures dataEventType == Asimov ==>
                forall s :: 0 <= s < |fitSampleList| ==>
                  |fitSampleList[s].data.eventList| == |fitSampleList[s].mc.eventList|
      ensures isInitialized == old(isInitialized) && config == old(config) && likelihoodSet == old(likelihoodSet)
      ensures dataEventType == old(dataEventType) && eventByEventDialLeafList == old(eventByEventDialLeafList)
      ensures dataSetList == old(dataSetList)
    {
      if dataEventType != Asimov {
        return;
      }
      fitSampleList := CopyMcEventsToData(fitSampleList);
    }
  }

  /** The copy `eventList = other.eventList` makes: new events, one per
      event of `events`, each with equal fields. */
  method CopyEvents(events: seq<PhysicsEvent>) returns (copies: seq<PhysicsEvent>)
    ensures |copies| == |events|
    ensures forall j :: 0 <= j < |events| ==> fresh(copies[j]) && copies[j].State() == events[j].State()
  {
    copies := [];
    var j := 0;
    while j < |events|
      invariant 0 <= j <= |events| && |copies| == j
      invariant forall k :: 0 <= k < j ==> fresh(copies[k]) && copies[k].State() == events[k].State()
    {
      var e := events[j].Copy();
      copies := copies + [e];
      j := j + 1;
    }
  }
  /** The copy loop of loadAsimovData: the data events of every sample
      become fresh copies of its MC events, and nothing else changes. */
  method CopyMcEventsToData(samples: seq<FitSample>) returns (r: seq<FitSample>)
    ensures DataEventsReplaced(samples, r)
    ensures forall s :: 0 <= s < |r| ==> |r[s].data.eventList| == |r[s].mc.eventList|
    ensures forall s, j :: 0 <= s < |r| && 0 <= j < |r[s].mc.eventList| ==>
              fresh(r[s].data.eventList[j]) && r[s].data.eventList[j].State() == r[s].mc.eventList[j].State()
  {
    r := samples;
    var s := 0;
    while s < |r|
      invariant 0 <= s <= |r| && DataEventsReplaced(samples, r)
      invariant forall t :: 0 <= t < s ==> |r[t].data.eventList| == |r[t].mc.eventList|
      invariant forall t, j :: 0 <= t < s && 0 <= j < |r[t].mc.eventList| ==>
                  fresh(r[t].data.eventList[j]) && r[t].data.eventList[j].State() == r[t].mc.eventList[j].State()
    {
      var copies := CopyEvents(r[s].mc.eventList);
      r := r[s := r[s].(data := r[s].data.(eventList := copies))];
      s := s + 1;
    }
  }

}

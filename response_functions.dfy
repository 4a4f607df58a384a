/** The arithmetic of the response-function shortcut of the propagator.
    makeResponseFunctions records, per sample and per parameter, the
    relative deviation of the MC histogram when that parameter alone is
    moved by one standard deviation; applyResponseFunctions then rebuilds
    a bin as its nominal content scaled, parameter after parameter, by
    (1 + x * deviation), skipping parameters sitting at their nominal value
    (x == 0).  Bins are numbered 1 .. N in the histogram; bin b is held at
    index b - 1. */
module ResponseFunctions {
  import opened FitSamples
  import opened Partition
  import opened DialCache

  /** Worker `t` of `n` owns the bin held at index `i`: the source tests
      the bin number, `(i + 1) % n == t`. */
  predicate OwnsBin(t: int, n: int, i: int)
    requires n >= 1
  {
    Owns(t, n, i + 1)
  }

  /** Every index has exactly one owning worker among 0 .. n-1. */
  lemma OwnsBinExactlyOne(n: int, i: int)
    requires n >= 1
    ensures 0 <= (i + 1) % n < n && OwnsBin((i + 1) % n, n, i)
    ensures forall t :: OwnsBin(t, n, i) ==> t == (i + 1) % n
  {
    ExactlyOneOwner(n, i + 1);
  }

  // ---------------------------------------------------------------------
  // The deviation step of makeResponseFunctions.

  /** The deviation histogram of a varied MC histogram `h` against the
      nominal one: content h / nominal - 1 and error 0, bin by bin.  Bins
      with a nominal content of 0 are excluded (IEEE infinities and NaNs
      are outside this model). */
  function Deviation(h: Histogram, nominal: Histogram): (d: Histogram)
    requires h.NbBins() == nominal.NbBins()
    requires forall i :: 0 <= i < nominal.NbBins() ==> nominal.content[i] != 0.0
    ensures d.WellFormed() && d.NbBins() == h.NbBins()
    ensures forall i :: 0 <= i < d.NbBins() ==>
              d.error[i] == 0.0 && nominal.content[i] * (d.content[i] + 1.0) == h.content[i]
  {
    Histogram(seq(h.NbBins(), i requires 0 <= i < h.NbBins() => h.content[i] / nominal.content[i] - 1.0),
              seq(h.NbBins(), _ => 0.0))
  }

  // ---------------------------------------------------------------------
  // The rebuilt bin.

  /** One parameter's factor on a bin: none when the parameter sits at its
      nominal value, (1 + x * rf) otherwise. */
  function Factor(x: real, rf: real): real
  {
    if x == 0.0 then 1.0 else 1.0 + x * rf
  }

  /** Every parameter below `P` has a response function covering bin `i`. */
  predicate Covers(rf: seq<seq<real>>, P: nat, i: nat)
  {
    P <= |rf| && forall p :: 0 <= p < P ==> i < |rf[p]|
  }

  /** The content of bin `i` once parameters 0 .. P-1 have been applied in
      order to the nominal content `nominal`, as the bin loop of
      applyResponseFunctions computes it: a parameter with x == 0 is
      skipped, any other multiplies the content by (1 + x * rf). */
  function RfValue(nominal: real, xs: seq<real>, rf: seq<seq<real>>, i: nat, P: nat): real
    requires P <= |xs| && Covers(rf, P, i)
  {
    if P == 0 then nominal
    else
      var v := RfValue(nominal, xs, rf, i, P - 1);
      if xs[P - 1] == 0.0 then v else v * (1.0 + xs[P - 1] * rf[P - 1][i])
  }

  /** One more parameter: skipped at its nominal value, a factor
      otherwise. */
  lemma RfValueNext(nominal: real, xs: seq<real>, rf: seq<seq<real>>, i: nat, P: nat)
    requires P < |xs| && Covers(rf, P + 1, i)
    ensures RfValue(nominal, xs, rf, i, P + 1) ==
              if xs[P] == 0.0 then RfValue(nominal, xs, rf, i, P)
              else RfValue(nominal, xs, rf, i, P) * (1.0 + xs[P] * rf[P][i])
  {
  }

  /** The product of the factors of parameters 0 .. P-1 on bin `i`. */
  function FactorProduct(xs: seq<real>, rf: seq<seq<real>>, i: nat, P: nat): real
    requires P <= |xs| && Covers(rf, P, i)
  {
    if P == 0 then 1.0 else FactorProduct(xs, rf, i, P - 1) * Factor(xs[P - 1], rf[P - 1][i])
  }

  /** The rebuilt bin is its nominal content times the product of the
      factors of the parameters away from nominal. */
  lemma {:induction false} RfValueIsProduct(nominal: real, xs: seq<real>, rf: seq<seq<real>>, i: nat, P: nat)
    requires P <= |xs| && Covers(rf, P, i)
    ensures RfValue(nominal, xs, rf, i, P) == nominal * FactorProduct(xs, rf, i, P)
  {
    if P > 0 {
      RfValueIsProduct(nominal, xs, rf, i, P - 1);
      var prod := FactorProduct(xs, rf, i, P - 1);
      var f := Factor(xs[P - 1], rf[P - 1][i]);
      assert (nominal * prod) * f == nominal * (prod * f);
    }
  }

  /** With every parameter at its nominal value the bin is its nominal
      content. */
  lemma {:induction false} RfValueAtNominal(nominal: real, xs: seq<real>, rf: seq<seq<real>>, i: nat, P: nat)
    requires P <= |xs| && Covers(rf, P, i)
    requires forall p :: 0 <= p < P ==> xs[p] == 0.0
    ensures RfValue(nominal, xs, rf, i, P) == nominal
  {
    if P > 0 {
      RfValueAtNominal(nominal, xs, rf, i, P - 1);
    }
  }

  /** A single parameter moved by one standard deviation, all others at
      nominal, reproduces the varied content the parameter's deviation was
      built from. */
  lemma RfValueReproducesVariation(nominal: Histogram, h: Histogram, xs: seq<real>, rf: seq<seq<real>>,
                                   i: nat, q: nat)
    requires h.NbBins() == nominal.NbBins() && i < nominal.NbBins()
    requires forall b :: 0 <= b < nominal.NbBins() ==> nominal.content[b] != 0.0
    requires q < |xs| && Covers(rf, |xs|, i)
    requires xs[q] == 1.0 && forall p :: 0 <= p < |xs| && p != q ==> xs[p] == 0.0
    requires rf[q] == Deviation(h, nominal).content
    ensures RfValue(nominal.content[i], xs, rf, i, |xs|) == h.content[i]
  {
    assert nominal.content[i] * (rf[q][i] + 1.0) == h.content[i];
    RfValueSingleUnit(nominal.content[i], xs, rf, i, q, h.content[i]);
  }

  /** Only parameter q moved, by exactly 1: the bin is its nominal content
      times (1 + rf[q]). */
  lemma RfValueSingleUnit(nom: real, xs: seq<real>, rf: seq<seq<real>>, i: nat, q: nat, c: real)
    requires q < |xs| && Covers(rf, |xs|, i)
    requires xs[q] == 1.0 && forall p :: 0 <= p < |xs| && p != q ==> xs[p] == 0.0
    requires nom * (rf[q][i] + 1.0) == c
    ensures RfValue(nom, xs, rf, i, |xs|) == c
  {
    RfValueAtNominal(nom, xs, rf, i, q);
    RfValueNext(nom, xs, rf, i, q);
    UnitStep(RfValue(nom, xs, rf, i, q), nom, xs[q], rf[q][i], c);
    RfValueAfterLast(nom, xs, rf, i, q + 1, |xs|);
  }

  lemma UnitStep(v: real, nom: real, x: real, dv: real, c: real)
    requires v == nom && x == 1.0 && nom * (dv + 1.0) == c
    ensures v * (1.0 + x * dv) == c
  {
  }

  /** Parameters at their nominal value past `P0` change nothing. */
  lemma {:induction false} RfValueAfterLast(nominal: real, xs: seq<real>, rf: seq<seq<real>>, i: nat, P0: nat, P: nat)
    requires P0 <= P <= |xs| && Covers(rf, P, i)
    requires forall p :: P0 <= p < P ==> xs[p] == 0.0
    ensures RfValue(nominal, xs, rf, i, P) == RfValue(nominal, xs, rf, i, P0)
  {
    if P0 < P {
      RfValueAfterLast(nominal, xs, rf, i, P0, P - 1);
    }
  }
  /** RfValue reads the distances below P only. */
  lemma {:induction false} RfValuePrefix(nominal: real, xs: seq<real>, ys: seq<real>, rf: seq<seq<real>>, i: nat, P: nat)
    requires P <= |xs| && P <= |ys| && xs[..P] == ys[..P] && Covers(rf, P, i)
    ensures RfValue(nominal, xs, rf, i, P) == RfValue(nominal, ys, rf, i, P)
  {
    if P > 0 {
      assert xs[..P - 1] == xs[..P][..P - 1] && ys[..P - 1] == ys[..P][..P - 1];
      assert xs[P - 1] == xs[..P][P - 1] && ys[P - 1] == ys[..P][P - 1];
      RfValuePrefix(nominal, xs, ys, rf, i, P - 1);
    }
  }

  /** One more parameter: skipped at its nominal value, applied as a factor
      otherwise. */
  lemma RfValueExtend(nominal: real, done: seq<real>, x: real, rf: seq<seq<real>>, i: nat)
    requires Covers(rf, |done| + 1, i)
    ensures RfValue(nominal, done + [x], rf, i, |done| + 1)
            == if x == 0.0 then RfValue(nominal, done, rf, i, |done|)
               else RfValue(nominal, done, rf, i, |done|) * (1.0 + x * rf[|done|][i])
  {
    assert (done + [x])[..|done|] == done[..|done|];
    RfValuePrefix(nominal, done + [x], done, rf, i, |done|);
  }

  // ---------------------------------------------------------------------
  // The parameter numbering (iPar) of applyResponseFunctions.

  /** The distances from nominal of a parameter list, in order. */
  function ListDistances(pars: seq<FitParameter>): (xs: seq<real>)
    ensures |xs| == |pars|
  {
    seq(|pars|, q requires 0 <= q < |pars| => pars[q].distanceFromNominal)
  }

  /** Every parameter's distance from nominal, the sets in order and, within
      a set, its parameters in order, enabled or not: entry iPar belongs to
      the parameter the running counter iPar of applyResponseFunctions
      stands at. */
  function Distances(parSets: seq<FitParameterSet>): (xs: seq<real>)
  {
    if |parSets| == 0 then []
    else Distances(parSets[..|parSets| - 1]) + ListDistances(parSets[|parSets| - 1].parameterList)
  }

  /** The entries of Distances line up with the parameters. */
  lemma {:induction false} DistancesAt(parSets: seq<FitParameterSet>, p: nat, q: nat)
    requires p < |parSets| && q < |parSets[p].parameterList|
    ensures |Distances(parSets[..p])| + q < |Distances(parSets)|
    ensures Distances(parSets)[|Distances(parSets[..p])| + q] == parSets[p].parameterList[q].distanceFromNominal
  {
    var last := |parSets| - 1;
    assert parSets[..|parSets|][..last] == parSets[..last];
    if p < last {
      DistancesAt(parSets[..last], p, q);
      assert parSets[..last][..p] == parSets[..p];
    } else {
      assert parSets[..last] == parSets[..p];
    }
  }

  // ---------------------------------------------------------------------
  // The rebuilt histogram.

  /** Each of the first P deviations covers `nb` bins. */
  predicate RfCovers(rf: seq<seq<real>>, P: nat, nb: nat)
  {
    P <= |rf| && forall p :: 0 <= p < P ==> nb <= |rf[p]|
  }

  /** The histogram applyResponseFunctions rebuilds from the nominal
      contents and the deviations: bin i's content is RfValue over every
      parameter, its error the square root of that content. */
  function RfHistogram(nominal: seq<real>, xs: seq<real>, rf: seq<seq<real>>, nb: nat, sqrt: real -> real): (h: Histogram)
    requires nb <= |nominal| && RfCovers(rf, |xs|, nb)
    ensures h.WellFormed() && h.NbBins() == nb
    ensures forall i :: 0 <= i < nb ==>
              h.content[i] == nominal[i] * FactorProduct(xs, rf, i, |xs|) && h.error[i] == sqrt(h.content[i])
  {
    RfValuesAreProducts(nominal, xs, rf, nb);
    var content := seq(nb, i requires 0 <= i < nb => RfValue(nominal[i], xs, rf, i, |xs|));
    Histogram(content, seq(nb, i requires 0 <= i < nb => sqrt(content[i])))
  }

  lemma RfValuesAreProducts(nominal: seq<real>, xs: seq<real>, rf: seq<seq<real>>, nb: nat)
    requires nb <= |nominal| && RfCovers(rf, |xs|, nb)
    ensures forall i :: 0 <= i < nb ==> RfValue(nominal[i], xs, rf, i, |xs|) == nominal[i] * FactorProduct(xs, rf, i, |xs|)
  {
    forall i | 0 <= i < nb
      ensures RfValue(nominal[i], xs, rf, i, |xs|) == nominal[i] * FactorProduct(xs, rf, i, |xs|)
    {
      RfValueIsProduct(nominal[i], xs, rf, i, |xs|);
    }
  }

  /** `r` is `h` with the bins worker t owns, content and error, taken
      from `full`. */
  predicate TakesOwnedBins(h: Histogram, r: Histogram, full: Histogram, t: int, n: int)
    requires n >= 1
  {
    && h.WellFormed() && r.WellFormed() && full.WellFormed()
    && r.NbBins() == h.NbBins() == full.NbBins()
    && forall i :: 0 <= i < h.NbBins() ==>
         if OwnsBin(t, n, i) then r.content[i] == full.content[i] && r.error[i] == full.error[i]
         else r.content[i] == h.content[i] && r.error[i] == h.error[i]
  }

  // ---------------------------------------------------------------------
  // The worker applyResponseFunctions(iThread), bin loop by bin loop.

  /** The reset loop on one histogram: each owned bin takes its nominal
      content. */
  method ResetBins(h: Histogram, nominal: seq<real>, t: int, n: int) returns (r: Histogram)
    requires n >= 1 && h.NbBins() <= |nominal|
    ensures r.error == h.error && r.NbBins() == h.NbBins()
    ensures forall i :: 0 <= i < h.NbBins() ==> r.content[i] == if OwnsBin(t, n, i) then nominal[i] else h.content[i]
  {
    r := h;
    var b := 1;
    while b <= h.NbBins()
      invariant 1 <= b <= h.NbBins() + 1
      invariant r.error == h.error && r.NbBins() == h.NbBins()
      invariant forall i :: 0 <= i < h.NbBins() ==>
                  r.content[i] == if i < b - 1 && OwnsBin(t, n, i) then nominal[i] else h.content[i]
    {
      if b % n == t {
        r := r.(content := r.content[b - 1 := nominal[b - 1]]);
      }
      b := b + 1;
    }
  }

  /** The loop of one parameter on one histogram: each owned bin is
      multiplied by (1 + x * rf). */
  method ScaleBins(h: Histogram, x: real, rf: seq<real>, t: int, n: int) returns (r: Histogram)
    requires n >= 1 && h.NbBins() <= |rf|
    ensures r.error == h.error && r.NbBins() == h.NbBins()
    ensures forall i :: 0 <= i < h.NbBins() ==>
              r.content[i] == if OwnsBin(t, n, i) then h.content[i] * (1.0 + x * rf[i]) else h.content[i]
  {
    r := h;
    var b := 1;
    while b <= h.NbBins()
      invariant 1 <= b <= h.NbBins() + 1
      invariant r.error == h.error && r.NbBins() == h.NbBins()
      invariant forall i :: 0 <= i < h.NbBins() ==>
                  r.content[i] == if i < b - 1 && OwnsBin(t, n, i) then h.content[i] * (1.0 + x * rf[i]) else h.content[i]
    {
      if b % n == t {
        r := r.(content := r.content[b - 1 := r.content[b - 1] * (1.0 + x * rf[b - 1])]);
      }
      b := b + 1;
    }
  }

  /** The error loop on one histogram: each owned bin's error becomes the
      square root of its content. */
  method SetBinErrors(h: Histogram, sqrt: real -> real, t: int, n: int) returns (r: Histogram)
    requires n >= 1 && h.WellFormed()
    ensures r.content == h.content && r.WellFormed()
    ensures forall i :: 0 <= i < h.NbBins() ==> r.error[i] == if OwnsBin(t, n, i) then sqrt(h.content[i]) else h.error[i]
  {
    r := h;
    var b := 1;
    while b <= h.NbBins()
      invariant 1 <= b <= h.NbBins() + 1
      invariant r.content == h.content && r.WellFormed()
      invariant forall i :: 0 <= i < h.NbBins() ==>
                  r.error[i] == if i < b - 1 && OwnsBin(t, n, i) then sqrt(h.content[i]) else h.error[i]
    {
      if b % n == t {
        r := r.(error := r.error[b - 1 := sqrt(r.content[b - 1])]);
      }
      b := b + 1;
    }
  }

  /** The MC histograms `hs` are `hists` with each owned bin's content
      rebuilt over the distances `xs`; errors untouched. */
  predicate PartlyRebuilt(hists: seq<Histogram>, hs: seq<Histogram>, nominal: seq<seq<real>>, xs: seq<real>,
                          rf: seq<seq<seq<real>>>, t: int, n: int)
    requires n >= 1
  {
    && |hs| == |hists| && |nominal| == |hists| && |rf| == |hists|
    && forall s :: 0 <= s < |hists| ==>
         && hs[s].error == hists[s].error && hs[s].NbBins() == hists[s].NbBins()
         && hists[s].NbBins() <= |nominal[s]| && RfCovers(rf[s], |xs|, hists[s].NbBins())
         && forall i :: 0 <= i < hists[s].NbBins() ==>
              hs[s].content[i] == if OwnsBin(t, n, i) then RfValue(nominal[s][i], xs, rf[s], i, |xs|) else hists[s].content[i]
  }

  /** Every owned bin of `r` is the bin of `hs` times (1 + x * rf), rf the
      deviation of parameter iPar in that sample; nothing else differs. */
  predicate ScaledBy(hs: seq<Histogram>, r: seq<Histogram>, x: real, rf: seq<seq<seq<real>>>, iPar: nat, t: int, n: int)
    requires n >= 1
  {
    && |r| == |hs| && |rf| == |hs|
    && forall s :: 0 <= s < |hs| ==>
         && iPar < |rf[s]| && hs[s].NbBins() <= |rf[s][iPar]|
         && r[s].error == hs[s].error && r[s].NbBins() == hs[s].NbBins()
         && forall i :: 0 <= i < hs[s].NbBins() ==>
              r[s].content[i] == if OwnsBin(t, n, i) then hs[s].content[i] * (1.0 + x * rf[s][iPar][i]) else hs[s].content[i]
  }

  /** One parameter (number iPar, at distance x) applied to every sample's
      histogram. */
  method ApplyParameter(hs: seq<Histogram>, x: real, rf: seq<seq<seq<real>>>, iPar: nat, t: int, n: int)
    returns (r: seq<Histogram>)
    requires n >= 1 && |rf| == |hs|
    requires forall s :: 0 <= s < |hs| ==> iPar < |rf[s]| && hs[s].NbBins() <= |rf[s][iPar]|
    ensures ScaledBy(hs, r, x, rf, iPar, t, n)
  {
    r := hs;
    var s := 0;
    while s < |hs|
      invariant 0 <= s <= |hs| && |r| == |hs|
      invariant forall u :: s <= u < |hs| ==> r[u] == hs[u]
      invariant forall u :: 0 <= u < s ==>
                  && r[u].error == hs[u].error && r[u].NbBins() == hs[u].NbBins()
                  && forall i :: 0 <= i < hs[u].NbBins() ==>
                       r[u].content[i] == if OwnsBin(t, n, i) then hs[u].content[i] * (1.0 + x * rf[u][iPar][i]) else hs[u].content[i]
    {
      var h := ScaleBins(r[s], x, rf[s][iPar], t, n);
      r := r[s := h];
      s := s + 1;
    }
  }

  /** After one more parameter the histograms are rebuilt over one more
      distance. */
  lemma PartlyRebuiltNext(hists: seq<Histogram>, hs: seq<Histogram>, r: seq<Histogram>, nominal: seq<seq<real>>,
                          done: seq<real>, x: real, rf: seq<seq<seq<real>>>, t: int, n: int)
    requires n >= 1 && PartlyRebuilt(hists, hs, nominal, done, rf, t, n)
    requires |rf| == |hists| && forall s :: 0 <= s < |hists| ==> RfCovers(rf[s], |done| + 1, hists[s].NbBins())
    requires x == 0.0 ==> r == hs
    requires x != 0.0 ==> ScaledBy(hs, r, x, rf, |done|, t, n)
    ensures PartlyRebuilt(hists, r, nominal, done + [x], rf, t, n)
  {
    forall s, i | 0 <= s < |hists| && 0 <= i < hists[s].NbBins()
      ensures r[s].content[i] == if OwnsBin(t, n, i) then RfValue(nominal[s][i], done + [x], rf[s], i, |done + [x]|)
                                 else hists[s].content[i]
    {
      RfValueExtend(nominal[s][i], done, x, rf[s], i);
    }
  }

  /** The parameter loops: every parameter of every set, counted by iPar,
      skipped at its nominal value. */
  method ApplyParameters(hists: seq<Histogram>, hs: seq<Histogram>, ghost nominal: seq<seq<real>>, rf: seq<seq<seq<real>>>,
                         parSets: seq<FitParameterSet>, t: int, n: int)
    returns (r: seq<Histogram>)
    requires n >= 1 && PartlyRebuilt(hists, hs, nominal, [], rf, t, n)
    requires forall s :: 0 <= s < |hists| ==> RfCovers(rf[s], |Distances(parSets)|, hists[s].NbBins())
    ensures PartlyRebuilt(hists, r, nominal, Distances(parSets), rf, t, n)
  {
    r := hs;
    var iPar := -1;
    var p := 0;
    while p < |parSets|
      invariant 0 <= p <= |parSets|
      invariant iPar == |Distances(parSets[..p])| - 1
      invariant PartlyRebuilt(hists, r, nominal, Distances(parSets[..p]), rf, t, n)
    {
      var pars := parSets[p].parameterList;
      if |pars| > 0 {
        DistancesPrefix(parSets, p, |pars| - 1);
      }
      r, iPar := ApplyParameterSet(hists, r, nominal, rf, Distances(parSets[..p]), pars, iPar, t, n);
      assert parSets[..p + 1][..p] == parSets[..p];
      p := p + 1;
    }
    assert parSets[..p] == parSets;
  }

  /** The inner loop of the parameter loop: the parameters of one set, in
      order, numbered on from `iPar`, which counts the parameters `done`
      before them. */
  method ApplyParameterSet(hists: seq<Histogram>, hs: seq<Histogram>, ghost nominal: seq<seq<real>>,
                           rf: seq<seq<seq<real>>>, ghost done: seq<real>, pars: seq<FitParameter>,
                           iPar: int, t: int, n: int)
    returns (r: seq<Histogram>, last: int)
    requires n >= 1 && iPar == |done| - 1 && PartlyRebuilt(hists, hs, nominal, done, rf, t, n)
    requires forall s :: 0 <= s < |hists| ==> RfCovers(rf[s], |done| + |pars|, hists[s].NbBins())
    ensures last == |done| + |pars| - 1
    ensures PartlyRebuilt(hists, r, nominal, done + ListDistances(pars), rf, t, n)
  {
    r, last := hs, iPar;
    var q := 0;
    assert done + ListDistances(pars[..q]) == done;
    while q < |pars|
      invariant 0 <= q <= |pars|
      invariant last == |done| + q - 1
      invariant PartlyRebuilt(hists, r, nominal, done + ListDistances(pars[..q]), rf, t, n)
    {
      last := last + 1;
      var x := pars[q].distanceFromNominal;
      ghost var before := done + ListDistances(pars[..q]);
      var next := r;
      if x != 0.0 {
        next := ApplyParameter(r, x, rf, last, t, n);
      }
      PartlyRebuiltNext(hists, r, next, nominal, before, x, rf, t, n);
      assert ListDistances(pars[..q + 1]) == ListDistances(pars[..q]) + [x];
      assert before + [x] == done + ListDistances(pars[..q + 1]);
      r := next;
      q := q + 1;
    }
    assert pars[..q] == pars;
  }


  /** The distances up to parameter q of set p are a prefix of all of
      them, so every deviation covering all the parameters covers those. */
  lemma DistancesPrefix(parSets: seq<FitParameterSet>, p: nat, q: nat)
    requires p < |parSets| && q < |parSets[p].parameterList|
    ensures |Distances(parSets[..p])| + q < |Distances(parSets)|
  {
    DistancesAt(parSets, p, q);
  }
  /** The MC histograms and the response-function data the worker reads
      line up: one nominal content and one deviation list per sample, each
      covering the sample's bins, one deviation per parameter. */
  predicate RfReady(hists: seq<Histogram>, nominal: seq<seq<real>>, rf: seq<seq<seq<real>>>, P: nat)
  {
    && |nominal| == |hists| && |rf| == |hists|
    && forall s :: 0 <= s < |hists| ==>
         hists[s].WellFormed() && hists[s].NbBins() <= |nominal[s]| && RfCovers(rf[s], P, hists[s].NbBins())
  }

  /** applyResponseFunctions(iThread) on the MC histograms of the samples:
      the bins worker t owns, content and error, become those of
      RfHistogram; the other bins are left as they were. */
  method ApplyResponseFunctionsOn(hists: seq<Histogram>, nominal: seq<seq<real>>, rf: seq<seq<seq<real>>>,
                                  parSets: seq<FitParameterSet>, t: int, n: int, sqrt: real -> real)
    returns (r: seq<Histogram>)
    requires n >= 1 && RfReady(hists, nominal, rf, |Distances(parSets)|)
    ensures |r| == |hists|
    ensures forall s :: 0 <= s < |hists| ==>
              TakesOwnedBins(hists[s], r[s], RfHistogram(nominal[s], Distances(parSets), rf[s], hists[s].NbBins(), sqrt), t, n)
  {
    var hs := hists;
    var s := 0;
    while s < |hists|
      invariant 0 <= s <= |hists| && |hs| == |hists|
      invariant forall u :: s <= u < |hists| ==> hs[u] == hists[u]
      invariant forall u :: 0 <= u < s ==>
                  && hs[u].error == hists[u].error && hs[u].NbBins() == hists[u].NbBins()
                  && forall i :: 0 <= i < hists[u].NbBins() ==>
                       hs[u].content[i] == if OwnsBin(t, n, i) then nominal[u][i] else hists[u].content[i]
    {
      var h := ResetBins(hs[s], nominal[s], t, n);
      hs := hs[s := h];
      s := s + 1;
    }
    assert PartlyRebuilt(hists, hs, nominal, [], rf, t, n);
    hs := ApplyParameters(hists, hs, nominal, rf, parSets, t, n);
    r := hs;
    s := 0;
    while s < |hists|
      invariant 0 <= s <= |hists| && |r| == |hists|
      invariant forall u :: s <= u < |hists| ==> r[u] == hs[u]
      invariant forall u :: 0 <= u < s ==>
                  && r[u].content == hs[u].content && r[u].WellFormed()
                  && forall i :: 0 <= i < hists[u].NbBins() ==>
                       r[u].error[i] == if OwnsBin(t, n, i) then sqrt(hs[u].content[i]) else hists[u].error[i]
    {
      var h := SetBinErrors(r[s], sqrt, t, n);
      r := r[s := h];
      s := s + 1;
    }
    forall u | 0 <= u < |hists|
      ensures TakesOwnedBins(hists[u], r[u], RfHistogram(nominal[u], Distances(parSets), rf[u], hists[u].NbBins(), sqrt), t, n)
    {
      RfValuesAreProducts(nominal[u], Distances(parSets), rf[u], hists[u].NbBins());
    }
  }
  /** After workers 0 .. t-1: the bins they own, content and error, are
      those of `full`, the others those of `h0`. */
  predicate RebuiltUpTo(h0: Histogram, h: Histogram, full: Histogram, t: int, n: int)
    requires n >= 1
  {
    && h0.WellFormed() && h.WellFormed() && full.WellFormed()
    && h.NbBins() == h0.NbBins() == full.NbBins()
    && forall i :: 0 <= i < h0.NbBins() ==>
         if (i + 1) % n < t then h.content[i] == full.content[i] && h.error[i] == full.error[i]
         else h.content[i] == h0.content[i] && h.error[i] == h0.error[i]
  }

  /** Worker t adds its own bins to those of the workers before it. */
  lemma RebuiltNext(h0: Histogram, h: Histogram, r: Histogram, full: Histogram, t: int, n: int)
    requires 0 <= t < n && RebuiltUpTo(h0, h, full, t, n) && TakesOwnedBins(h, r, full, t, n)
    ensures RebuiltUpTo(h0, r, full, t + 1, n)
  {
  }

  /** Once every worker has run, the histogram is `full`: each bin has
      exactly one owner. */
  lemma {:induction false} RebuiltAll(h0: Histogram, h: Histogram, full: Histogram, n: int)
    requires n >= 1 && RebuiltUpTo(h0, h, full, n, n)
    ensures h == full
  {
    forall i | 0 <= i < h.NbBins()
      ensures h.content[i] == full.content[i] && h.error[i] == full.error[i]
    {
      OwnsBinExactlyOne(n, i);
    }
    assert h.content == full.content && h.error == full.error;
  }
}

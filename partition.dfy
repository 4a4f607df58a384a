/** The static partitioning of the propagator's worker bodies.
    reweightSampleEvents walks a stride: worker t of n visits t, t + n,
    t + 2n, ... (worker -1 standing for a single worker that visits
    everything); fillEventDialCaches and applyResponseFunctions instead test
    ownership with `i % n == t`.  The lemmas show the two agree, that each
    index has exactly one owner, and that worker -1 owns nothing under the
    ownership test. */
module Partition {

  /** The first index and the step reweightSampleEvents uses for worker
      `iThread` of `nThreads`: -1 forces one worker starting at 0. */
  function StrideStart(iThread: int): (start: int)
    ensures iThread == -1 ==> start == 0
    ensures iThread != -1 ==> start == iThread
  {
    if iThread == -1 then 0 else iThread
  }

  function StrideStep(iThread: int, nThreads: int): (step: int)
    ensures iThread == -1 ==> step == 1
    ensures iThread != -1 ==> step == nThreads
  {
    if iThread == -1 then 1 else nThreads
  }

  /** `i` lies on the stride starting at `start` with step `step`. */
  predicate OnStride(start: int, step: int, i: int)
    requires step >= 1
  {
    start <= i && (i - start) % step == 0
  }

  /** The indices below `bound` that the stride loop visits, in visiting
      order. */
  function Stride(start: int, step: int, bound: int): (r: seq<int>)
    requires step >= 1
    decreases bound - start
  {
    if start < bound then [start] + Stride(start + step, step, bound) else []
  }

  /** The stride visits exactly the indices on it below the bound, each
      once and in increasing order. */
  lemma {:induction false} StrideContents(start: int, step: int, bound: int)
    requires step >= 1
    ensures forall i :: i in Stride(start, step, bound) <==> OnStride(start, step, i) && i < bound
    ensures forall a, b :: 0 <= a < b < |Stride(start, step, bound)| ==>
              Stride(start, step, bound)[a] < Stride(start, step, bound)[b]
    decreases bound - start
  {
    if start < bound {
      StrideContents(start + step, step, bound);
      var rest := Stride(start + step, step, bound);
      forall i ensures i in Stride(start, step, bound) <==> OnStride(start, step, i) && i < bound {
        if start < i {
          StepDown(start, step, i);
        }
      }
      forall a | 0 <= a < |rest| ensures start < rest[a] {
        assert rest[a] in rest;
      }
    } else {
      forall i | OnStride(start, step, i) ensures bound <= i { }
    }
  }

  /** Past the start, `i` is on the stride from `start` exactly when it is
      on the stride from the next visited index. */
  lemma StepDown(start: int, step: int, i: int)
    requires step >= 1 && start < i
    ensures OnStride(start, step, i) <==> OnStride(start + step, step, i)
  {
    var x := i - (start + step);
    DivMod(x, step);
    DivModUnique(x + step, step, x / step + 1, x % step);
    if OnStride(start, step, i) && i < start + step {
      DivModUnique(i - start, step, 0, i - start);
    }
  }

  /** Between two consecutive visited indices no index is on the stride,
      and the next visited index is one step further. */
  lemma StrideGap(start: int, step: int, a: int, i: int)
    requires step >= 1 && OnStride(start, step, a) && a < i <= a + step
    ensures OnStride(start, step, i) <==> i == a + step
  {
    DivMod(a - start, step);
    var q := (a - start) / step;
    if i < a + step {
      DivModUnique(i - start, step, q, i - a);
    } else {
      DivModUnique(i - start, step, q + 1, 0);
    }
  }

  /** Dafny's Euclidean division: x is (x / m) * m + x % m, with the
      remainder in [0, m). */
  lemma DivMod(x: int, m: int)
    requires m >= 1
    ensures x == (x / m) * m + x % m && 0 <= x % m < m
  {
  }

  /** The quotient and remainder are the only such pair. */
  lemma DivModUnique(x: int, m: int, q: int, r: int)
    requires m >= 1 && 0 <= r < m && x == q * m + r
    ensures x / m == q && x % m == r
  {
    DivMod(x, m);
    var q', r' := x / m, x % m;
    assert (q - q') * m == r' - r;
    if q' < q {
      MulAtLeast(q - q', m);
    } else if q < q' {
      MulAtLeast(q' - q, m);
    }
  }

  lemma MulAtLeast(k: int, m: int)
    requires k >= 1 && m >= 1
    ensures k * m >= m
  {
    assert k * m == (k - 1) * m + m;
    assert (k - 1) * m >= 0;
  }

  /** The ownership test of fillEventDialCaches and applyResponseFunctions. */
  predicate Owns(iThread: int, nThreads: int, i: int)
    requires nThreads >= 1
  {
    i % nThreads == iThread
  }

  /** For a worker id in range and a non-negative index, the stride of
      reweightSampleEvents and the ownership test pick the same indices. */
  lemma StrideMatchesOwner(t: int, n: int, i: int)
    requires 0 <= t < n && 0 <= i
    ensures OnStride(t, n, i) <==> Owns(t, n, i)
  {
    if Owns(t, n, i) {
      DivMod(i, n);
      DivModUnique(i - t, n, i / n, 0);
    }
    if OnStride(t, n, i) {
      DivMod(i - t, n);
      DivModUnique(i, n, (i - t) / n, t);
    }
  }

  /** Every index has exactly one owner among workers 0 .. n-1. */
  lemma ExactlyOneOwner(n: int, i: int)
    requires n >= 1
    ensures 0 <= i % n < n && Owns(i % n, n, i)
    ensures forall t :: Owns(t, n, i) ==> t == i % n
  {
  }

  /** The strides of workers 0 .. n-1 cover every index below the bound
      exactly once. */
  lemma StridesPartition(n: int, bound: int, i: int)
    requires n >= 1 && 0 <= i < bound
    ensures 0 <= i % n < n && i in Stride(i % n, n, bound)
    ensures forall t :: 0 <= t < n && i in Stride(t, n, bound) ==> t == i % n
  {
    StrideContents(i % n, n, bound);
    StrideMatchesOwner(i % n, n, i);
    forall t | 0 <= t < n && i in Stride(t, n, bound) ensures t == i % n {
      StrideContents(t, n, bound);
      StrideMatchesOwner(t, n, i);
    }
  }

  /** Worker -1 owns no index under the ownership test (its comparison in
      fillEventDialCaches is made in size_t, where -1 is the largest value
      and no remainder reaches it), while reweightSampleEvents treats it as
      the single worker visiting every index. */
  lemma MinusOneWorker(n: int, bound: int, i: int)
    requires n >= 1 && 0 <= i < bound
    ensures !Owns(-1, n, i)
    ensures i in Stride(StrideStart(-1), StrideStep(-1, n), bound)
  {
    StrideContents(0, 1, bound);
  }
}

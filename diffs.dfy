/**
 * The discrete part of preparing one locus: dropping the individuals whose
 * genotype is missing (a negative value), dropping the demes with no
 * sample, and the contrast matrix that maps the n_i observed individuals
 * to the (n_i - 1)-dimensional space of differences.
 */
module Diffs {

  /** The number of observed (non-negative) entries. */
  function CountObserved(z: seq<real>): (n: nat)
    ensures n <= |z|
  {
    if z == [] then 0 else (if z[0] >= 0.0 then 1 else 0) + CountObserved(z[1..])
  }

  /** The number of demes with at least one sample. */
  function CountPresent(c: seq<nat>): (n: nat)
    ensures n <= |c|
  {
    if c == [] then 0 else (if c[0] > 0 then 1 else 0) + CountPresent(c[1..])
  }

  /** idx is strictly increasing and lists indices of a sequence of length n. */
  predicate StrictlyIncreasingIndices(idx: seq<int>, n: int) {
    && (forall k :: 0 <= k < |idx| ==> 0 <= idx[k] < n)
    && (forall k, l :: 0 <= k < l < |idx| ==> idx[k] < idx[l])
  }

  /** Counting from position j splits into the entry at j and the count after it. */
  lemma ObservedStep(z: seq<real>, j: nat)
    requires j < |z|
    ensures CountObserved(z[j..]) == (if z[j] >= 0.0 then 1 else 0) + CountObserved(z[j + 1..])
  {
    assert z[j..][1..] == z[j + 1..];
  }

  lemma PresentStep(c: seq<nat>, j: nat)
    requires j < |c|
    ensures CountPresent(c[j..]) == (if c[j] > 0 then 1 else 0) + CountPresent(c[j + 1..])
  {
    assert c[j..][1..] == c[j + 1..];
  }

  /** Recording index found, after skipping only missing entries, keeps the record of what was scanned exact. */
  lemma RecordObserved(z: seq<real>, oi: seq<int>, j: nat, found: nat)
    requires StrictlyIncreasingIndices(oi, j) && j <= found < |z| && z[found] >= 0.0
    requires forall i :: 0 <= i < j ==> (z[i] >= 0.0 <==> i in oi)
    requires forall i :: j <= i < found ==> z[i] < 0.0
    ensures StrictlyIncreasingIndices(oi + [found], found + 1)
    ensures forall i :: 0 <= i < found + 1 ==> (z[i] >= 0.0 <==> i in oi + [found])
  {
    forall i | 0 <= i < found + 1
      ensures z[i] >= 0.0 <==> i in oi + [found]
    {
      if i in oi {
        var k :| 0 <= k < |oi| && oi[k] == i;
        assert i < j;
      }
    }
  }

  /** Advance j past missing entries; one observed entry remains from j on, so the scan stops at one. */
  method SkipMissing(z: seq<real>, j: nat) returns (next: nat)
    requires j < |z| && CountObserved(z[j..]) > 0
    ensures j <= next < |z| && z[next] >= 0.0
    ensures CountObserved(z[next..]) == CountObserved(z[j..])
    ensures forall i :: j <= i < next ==> z[i] < 0.0
  {
    next := j;
    while z[next] < 0.0
      invariant j <= next < |z| && CountObserved(z[next..]) == CountObserved(z[j..])
      invariant forall i :: j <= i < next ==> z[i] < 0.0
      decreases |z| - next
    {
      ObservedStep(z, next);
      next := next + 1;
    }
  }

  /**
   * Copy the observed entries of z into zi and record in oi where each one
   * came from, scanning z once from the left.
   */
  method CompactObserved(z: seq<real>) returns (zi: seq<real>, oi: seq<int>)
    ensures |zi| == |oi| == CountObserved(z)
    ensures StrictlyIncreasingIndices(oi, |z|)
    ensures forall k :: 0 <= k < |oi| ==> zi[k] == z[oi[k]]
    ensures forall j :: 0 <= j < |z| ==> (z[j] >= 0.0 <==> j in oi)
  {
    var ni := CountObserved(z);
    zi, oi := [], [];
    var j := 0;
    var j2 := 0;
    while j2 < ni
      invariant 0 <= j2 <= ni && 0 <= j <= |z|
      invariant |zi| == |oi| == j2
      invariant CountObserved(z[j..]) == ni - j2
      invariant StrictlyIncreasingIndices(oi, j)
      invariant forall k :: 0 <= k < |oi| ==> zi[k] == z[oi[k]]
      invariant forall i :: 0 <= i < j ==> (z[i] >= 0.0 <==> i in oi)
    {
      var found := SkipMissing(z, j);
      ObservedStep(z, found);
      RecordObserved(z, oi, j, found);
      zi := zi + [z[found]];
      oi := oi + [found];
      j := found + 1;
      j2 := j2 + 1;
    }
    // no observed entry is left after position j
    CountZeroMeansMissing(z[j..]);
    forall i | j <= i < |z|
      ensures z[i] < 0.0
    {
      assert z[j..][i - j] == z[i];
    }
  }

  lemma {:induction false} CountZeroMeansMissing(s: seq<real>)
    requires CountObserved(s) == 0
    ensures forall i :: 0 <= i < |s| ==> s[i] < 0.0
  {
    if s != [] {
      CountZeroMeansMissing(s[1..]);
      assert forall i :: 1 <= i < |s| ==> s[i] == s[1..][i - 1];
    }
  }

  /** Recording deme found, after skipping only empty demes, keeps the record of what was scanned exact. */
  lemma RecordPresent(ci: seq<nat>, si: seq<int>, j: nat, found: nat)
    requires StrictlyIncreasingIndices(si, j) && j <= found < |ci| && ci[found] > 0
    requires forall i :: 0 <= i < j ==> (ci[i] > 0 <==> i in si)
    requires forall i :: j <= i < found ==> ci[i] == 0
    ensures StrictlyIncreasingIndices(si + [found], found + 1)
    ensures forall i :: 0 <= i < found + 1 ==> (ci[i] > 0 <==> i in si + [found])
  {
    forall i | 0 <= i < found + 1
      ensures ci[i] > 0 <==> i in si + [found]
    {
      if i in si {
        var k :| 0 <= k < |si| && si[k] == i;
        assert i < j;
      }
    }
  }

  /** Advance j past demes without samples; one sampled deme remains from j on, so the scan stops at one. */
  method SkipEmpty(ci: seq<nat>, j: nat) returns (next: nat)
    requires j < |ci| && CountPresent(ci[j..]) > 0
    ensures j <= next < |ci| && ci[next] > 0
    ensures CountPresent(ci[next..]) == CountPresent(ci[j..])
    ensures forall i :: j <= i < next ==> ci[i] == 0
  {
    next := j;
    while ci[next] == 0
      invariant j <= next < |ci| && CountPresent(ci[next..]) == CountPresent(ci[j..])
      invariant forall i :: j <= i < next ==> ci[i] == 0
      decreases |ci| - next
    {
      PresentStep(ci, next);
      next := next + 1;
    }
  }

  /**
   * The indices of the demes that have at least one sample at this locus,
   * in increasing order, scanning the per-deme sample counts once.
   */
  method CompactPresent(ci: seq<nat>) returns (si: seq<int>)
    ensures |si| == CountPresent(ci)
    ensures StrictlyIncreasingIndices(si, |ci|)
    ensures forall j :: 0 <= j < |ci| ==> (ci[j] > 0 <==> j in si)
  {
    var o0 := CountPresent(ci);
    si := [];
    var j := 0;
    var j2 := 0;
    while j2 < o0
      invariant 0 <= j2 <= o0 && 0 <= j <= |ci|
      invariant |si| == j2
      invariant CountPresent(ci[j..]) == o0 - j2
      invariant StrictlyIncreasingIndices(si, j)
      invariant forall i :: 0 <= i < j ==> (ci[i] > 0 <==> i in si)
    {
      var found := SkipEmpty(ci, j);
      PresentStep(ci, found);
      RecordPresent(ci, si, j, found);
      si := si + [found];
      j := found + 1;
      j2 := j2 + 1;
    }
    CountZeroMeansEmpty(ci[j..]);
    forall i | j <= i < |ci|
      ensures ci[i] == 0
    {
      assert ci[j..][i - j] == ci[i];
    }
  }

  lemma {:induction false} CountZeroMeansEmpty(s: seq<nat>)
    requires CountPresent(s) == 0
    ensures forall i :: 0 <= i < |s| ==> s[i] == 0
  {
    if s != [] {
      CountZeroMeansEmpty(s[1..]);
      assert forall i :: 1 <= i < |s| ==> s[i] == s[1..][i - 1];
    }
  }

  /**
   * Li for ni observed individuals: ni - 1 rows of length ni, every entry
   * of column 0 is -1 and the remaining ni - 1 columns hold the identity.
   */
  function ContrastMatrix(ni: nat): (li: seq<seq<real>>)
    requires ni >= 1
    ensures |li| == ni - 1
    ensures forall r :: 0 <= r < ni - 1 ==> |li[r]| == ni
  {
    seq(ni - 1, r => seq(ni, c => if c == 0 then -1.0 else if c == r + 1 then 1.0 else 0.0))
  }

  /** The sum of u[i] * x[i] over the first n positions. */
  function Dot(u: seq<real>, x: seq<real>, n: nat): real
    requires n <= |u| && n <= |x|
  {
    if n == 0 then 0.0 else Dot(u, x, n - 1) + u[n - 1] * x[n - 1]
  }

  lemma {:induction false} ContrastRowPrefix(ni: nat, r: nat, x: seq<real>, n: nat)
    requires ni >= 1 && r < ni - 1 && |x| == ni && 1 <= n <= ni
    ensures Dot(ContrastMatrix(ni)[r], x, n) == -x[0] + (if r + 1 < n then x[r + 1] else 0.0)
  {
    if n > 1 {
      ContrastRowPrefix(ni, r, x, n - 1);
    }
  }

  /** Row r of Li contrasts individual r + 1 with individual 0. */
  lemma ContrastRowApplied(ni: nat, r: nat, x: seq<real>)
    requires ni >= 1 && r < ni - 1 && |x| == ni
    ensures Dot(ContrastMatrix(ni)[r], x, ni) == x[r + 1] - x[0]
  {
    ContrastRowPrefix(ni, r, x, ni);
  }

  /** Every row of Li sums to zero. */
  lemma ContrastRowsSumToZero(ni: nat, r: nat)
    requires ni >= 1 && r < ni - 1
    ensures Dot(ContrastMatrix(ni)[r], seq(ni, _ => 1.0), ni) == 0.0
  {
    ContrastRowApplied(ni, r, seq(ni, _ => 1.0));
  }

  /** Adding the same constant to every individual leaves every contrast unchanged. */
  lemma ContrastIgnoresShift(ni: nat, r: nat, x: seq<real>, shift: real)
    requires ni >= 1 && r < ni - 1 && |x| == ni
    ensures Dot(ContrastMatrix(ni)[r], seq(ni, i requires 0 <= i < ni => x[i] + shift), ni)
         == Dot(ContrastMatrix(ni)[r], x, ni)
  {
    ContrastRowApplied(ni, r, x);
    ContrastRowApplied(ni, r, seq(ni, i requires 0 <= i < ni => x[i] + shift));
  }
}

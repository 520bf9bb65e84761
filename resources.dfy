/**
 * Resource statistics (Performance.h, Performance.cpp): the running
 * peak/average ResourceInfo and the reference-counted ResourceStatistics
 * monitor attached to a section.
 */
module Resources {

  /**
   * C++ `/` on integers: the quotient truncated toward zero, so the
   * remainder `a - q * b` has the sign of the dividend and is smaller than `b`.
   */
  function TruncDiv(a: int, b: int): (q: int)
    requires b > 0
    ensures a >= 0 ==> q * b <= a < q * b + b
    ensures a < 0 ==> q * b - b < a <= q * b
  {
    if a >= 0 then a / b else -((-a) / b)
  }

  /** The four fields of a ResourceInfo, as a value. */
  datatype Info = Info(peak: int, avg: int, total: int, count: int)

  /** A freshly constructed ResourceInfo. */
  const Zero := Info(0, 0, 0, 0)

  /**
   * ResourceInfo::Update on values: a negative reading is dropped; any other
   * raises the peak if larger, adds to the total and recomputes the average
   * with the incremented count.
   */
  function Updated(i: Info, v: int): (r: Info)
    requires i.count >= 0
    ensures v < 0 ==> r == i
    ensures v >= 0 ==> r.count == i.count + 1 && r.total == i.total + v
    ensures v >= 0 ==> r.peak >= v && r.peak >= i.peak && (r.peak == v || r.peak == i.peak)
  {
    if v < 0 then i
    else
      var total := i.total + v;
      var count := i.count + 1;
      Info(if v > i.peak then v else i.peak, TruncDiv(total, count), total, count)
  }

  /**
   * What every ResourceInfo reachable from the zero state satisfies: the
   * count is non-negative, the peak is non-negative and at most the total,
   * the total is at most count * peak, and the average is the integer mean
   * (0 with no samples). That the peak is one of the readings and bounds
   * each of them is FoldSummary's.
   */
  ghost predicate Coherent(i: Info) {
    && 0 <= i.count
    && 0 <= i.peak <= i.total <= i.count * i.peak
    && i.avg == (if i.count == 0 then 0 else i.total / i.count)
  }

  lemma MulMonotone(c: int, x: int, y: int)
    requires 0 <= c && x <= y
    ensures c * x <= c * y
  {
  }

  lemma MulCancel(c: int, x: int, y: int)
    requires 0 < c && c * x <= c * y
    ensures x <= y
  {
  }

  lemma UpdatedKeepsCoherent(i: Info, v: int)
    requires Coherent(i)
    ensures Coherent(Updated(i, v))
  {
    if v >= 0 {
      var r := Updated(i, v);
      assert r.avg == r.total / r.count;
      MulMonotone(i.count, i.peak, r.peak);
      assert r.count * r.peak == i.count * r.peak + r.peak;
    }
  }

  /** The average never exceeds the peak, and neither is negative. */
  lemma AvgAtMostPeak(i: Info)
    requires Coherent(i)
    ensures 0 <= i.avg <= i.peak
  {
    if i.count > 0 {
      var q := i.total / i.count;
      assert i.count * q <= i.total;
      MulCancel(i.count, q, i.peak);
    }
  }

  /** The samples Update accepts, in order. */
  function Accepted(s: seq<int>): (r: seq<int>)
    ensures forall k :: 0 <= k < |r| ==> r[k] >= 0
    ensures |r| <= |s|
  {
    if s == [] then []
    else Accepted(s[..|s| - 1]) + (if s[|s| - 1] >= 0 then [s[|s| - 1]] else [])
  }

  function Sum(s: seq<int>): int {
    if s == [] then 0 else Sum(s[..|s| - 1]) + s[|s| - 1]
  }

  /** A ResourceInfo constructed, then updated with each sample in turn. */
  function FoldSamples(s: seq<int>): (r: Info)
    ensures r.count == |Accepted(s)|
  {
    if s == [] then Zero else Updated(FoldSamples(s[..|s| - 1]), s[|s| - 1])
  }

  lemma SumSnoc(s: seq<int>, x: int)
    ensures Sum(s + [x]) == Sum(s) + x
  {
    assert (s + [x])[..|s|] == s;
  }

  /**
   * Folding samples counts and totals exactly the non-negative ones, keeps
   * the peak at their maximum (zero when there are none) and the average at
   * their integer mean.
   */
  lemma {:induction false} FoldSummary(s: seq<int>)
    ensures var r := FoldSamples(s);
      && Coherent(r)
      && r.count == |Accepted(s)|
      && r.total == Sum(Accepted(s))
      && (forall k :: 0 <= k < |Accepted(s)| ==> Accepted(s)[k] <= r.peak)
      && (Accepted(s) == [] ==> r == Zero)
      && (Accepted(s) != [] ==> r.peak in Accepted(s))
  {
    if s != [] {
      var init, x := s[..|s| - 1], s[|s| - 1];
      FoldSummary(init);
      UpdatedKeepsCoherent(FoldSamples(init), x);
      if x >= 0 {
        SumSnoc(Accepted(init), x);
      } else {
        assert Accepted(s) == Accepted(init);
      }
    }
  }

  /** Samples 5, 10, -1, 15: the -1 is dropped. */
  lemma FoldExample()
    ensures FoldSamples([5, 10, -1, 15]) == Info(15, 10, 30, 3)
  {
    assert [5, 10, -1, 15][..3] == [5, 10, -1];
    assert [5, 10, -1][..2] == [5, 10];
    assert [5, 10][..1] == [5];
    assert [5][..0] == [];
  }

  /** ResourceInfo: peak, average, total and count of one resource's readings. */
  class ResourceInfo {
    var peak: int
    var avg: int
    var total: int
    var count: int

    function Value(): Info
      reads this
    {
      Info(peak, avg, total, count)
    }

    constructor ()
      ensures Value() == Zero
    {
      peak, avg, total, count := 0, 0, 0, 0;
    }

    method Update(value: int)
      requires count >= 0
      modifies this
      ensures Value() == Updated(old(Value()), value)
    {
      if value < 0 {
        return;
      }
      if value > peak {
        peak := value;
      }
      total := total + value;
      count := count + 1;
      avg := TruncDiv(total, count);
    }
  }

  /** The reference count after StartStatistics. */
  function AfterStart(n: int): int {
    n + 1
  }

  /** StartStatistics wakes the sampling loop only on the 0 -> 1 transition. */
  predicate Wakes(n: int) {
    n == 0
  }

  /** The reference count after StopStatistics: decremented only while positive. */
  function AfterStop(n: int): (r: int)
    ensures 0 <= n ==> 0 <= r <= n
    ensures 0 < n ==> r < n
    ensures n <= 0 ==> r == n
  {
    if n > 0 then n - 1 else n
  }

  /**
   * ResourceStatistics: the process id, a CPU and a memory ResourceInfo, and
   * the activation reference count; the sampling thread is not modelled.
   */
  class ResourceStatistics {
    const pid: int
    const cpuInfo: ResourceInfo
    const memoryInfo: ResourceInfo
    var refCount: int

    ghost predicate Valid()
      reads this, cpuInfo, memoryInfo
    {
      && 0 <= refCount
      && cpuInfo != memoryInfo
      && Coherent(cpuInfo.Value())
      && Coherent(memoryInfo.Value())
    }

    constructor (pid: int)
      ensures Valid() && fresh(cpuInfo) && fresh(memoryInfo)
      ensures this.pid == pid && refCount == 0
      ensures cpuInfo.Value() == Zero && memoryInfo.Value() == Zero
    {
      this.pid := pid;
      cpuInfo := new ResourceInfo();
      memoryInfo := new ResourceInfo();
      refCount := 0;
    }

    /** StartStatistics: counts one activation; `wakes` is the notify_one. */
    method StartStatistics() returns (wakes: bool)
      modifies this
      ensures refCount == AfterStart(old(refCount))
      ensures old(Valid()) ==> Valid()
      ensures wakes == Wakes(old(refCount))
    {
      wakes := refCount == 0;
      refCount := refCount + 1;
    }

    /** StopStatistics: releases one activation, never going below zero. */
    method StopStatistics()
      modifies this
      ensures refCount == AfterStop(old(refCount))
      ensures old(Valid()) ==> Valid()
    {
      if refCount > 0 {
        refCount := refCount - 1;
      }
    }

    /**
     * One sampling step of the background loop: the CPU and resident-memory
     * readings, already converted to integers, folded into the two infos.
     */
    method Sample(cpu: int, rss: int)
      requires Valid()
      modifies cpuInfo, memoryInfo
      ensures Valid()
      ensures cpuInfo.Value() == Updated(old(cpuInfo.Value()), cpu)
      ensures memoryInfo.Value() == Updated(old(memoryInfo.Value()), rss)
    {
      UpdatedKeepsCoherent(cpuInfo.Value(), cpu);
      UpdatedKeepsCoherent(memoryInfo.Value(), rss);
      cpuInfo.Update(cpu);
      memoryInfo.Update(rss);
    }
  }
}

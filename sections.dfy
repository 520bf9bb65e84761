/**
 * PerformanceSection (Performance.h, Performance.cpp): per-thread call
 * counts, reference depth, begin time and cost time of one call site, and
 * the recursion-safe Begin/End rules that update them.
 */
module Sections {
  import opened Wrappers
  import Resources

  /** `map[k]` on a StatisMap: a missing thread reads as a default 0. */
  function Get(m: map<int, int>, k: int): int {
    if k in m then m[k] else 0
  }

  /** A map with a non-zero size has a key. */
  lemma HasKey(m: map<int, int>)
    requires |m| != 0
    ensures exists k :: k in m
  {
    if forall k :: k !in m {
      assert false;
    }
  }

  /** Some key of a non-empty map: the one Total takes out first. */
  ghost function Pick(m: map<int, int>): (k: int)
    requires |m| != 0
    ensures k in m
  {
    HasKey(m);
    var k :| k in m;
    k
  }

  /** The sum of a map's values. */
  ghost function Total(m: map<int, int>): int
    decreases |m|
  {
    if |m| == 0 then 0
    else
      var k := Pick(m);
      m[k] + Total(m - {k})
  }

  /** Total does not depend on which key is taken out first. */
  lemma {:induction false} TotalRemove(m: map<int, int>, k: int)
    requires k in m
    ensures Total(m) == m[k] + Total(m - {k})
    decreases |m|
  {
    var j := Pick(m);
    assert Total(m) == m[j] + Total(m - {j});
    if j != k {
      TotalRemove(m - {j}, k);
      TotalRemove(m - {k}, j);
      assert m - {j} - {k} == m - {k} - {j};
    }
  }

  /** Overwriting one thread's value changes the sum by the difference. */
  lemma TotalUpdate(m: map<int, int>, k: int, v: int)
    ensures Total(m[k := v]) == Total(m) - Get(m, k) + v
  {
    TotalRemove(m[k := v], k);
    if k in m {
      TotalRemove(m, k);
      assert m[k := v] - {k} == m - {k};
    } else {
      assert m[k := v] - {k} == m;
    }
  }

  /** The fields of a PerformanceSection other than its resource monitor, as a value. */
  datatype SectionState = SectionState(
    callCount: map<int, int>, totalCallCount: int,
    refCount: map<int, int>, totalRef: int,
    beginTime: map<int, int>,
    costTime: map<int, int>, totalCostTime: int)

  /** A freshly constructed section: zero totals, empty maps. */
  const Initial := SectionState(map[], 0, map[], 0, map[], map[], 0)

  /**
   * The invariant Begin and End keep: each total is the sum of its per-thread
   * map, and a thread has a cost only after a begin time, a begin time only
   * after a call, and a call only with a reference count.
   */
  ghost predicate Consistent(s: SectionState) {
    SumsMatch(s) && KeysNested(s)
  }

  ghost predicate SumsMatch(s: SectionState) {
    && s.totalRef == Total(s.refCount)
    && s.totalCallCount == Total(s.callCount)
  }

  ghost predicate KeysNested(s: SectionState) {
    && s.costTime.Keys <= s.beginTime.Keys
    && s.beginTime.Keys <= s.callCount.Keys
    && s.callCount.Keys <= s.refCount.Keys
  }

  /**
   * PerformanceSection::Begin(threadId) at clock value `now`: count the call;
   * record the begin time only when the thread's depth goes from 0 to 1.
   */
  function AfterBegin(s: SectionState, t: int, now: int): SectionState {
    var ref := Get(s.refCount, t);
    SectionState(
      s.callCount[t := Get(s.callCount, t) + 1], s.totalCallCount + 1,
      s.refCount[t := ref + 1], s.totalRef + 1,
      if ref == 0 then s.beginTime[t := now] else s.beginTime,
      s.costTime, s.totalCostTime)
  }

  /**
   * PerformanceSection::End(threadId) at clock value `now`: drop the depth;
   * when it reaches 0 or below and the thread has a begin time, charge the
   * elapsed time, added to the thread's cost on a matched End and
   * overwriting it on a surplus one; the total grows either way.
   */
  function AfterEnd(s: SectionState, t: int, now: int): SectionState {
    var ref := Get(s.refCount, t) - 1;
    var r := s.(refCount := s.refCount[t := ref], totalRef := s.totalRef - 1);
    if ref <= 0 && t in s.beginTime then
      var cost := now - s.beginTime[t];
      r.(costTime := s.costTime[t := if ref == 0 then Get(s.costTime, t) + cost else cost],
         totalCostTime := s.totalCostTime + cost)
    else r
  }

  /** Begin calls StartStatistics exactly when the thread enters at depth 0. */
  predicate StartsMonitor(s: SectionState, t: int) {
    Get(s.refCount, t) == 0
  }

  /** End calls StopStatistics exactly when the thread's depth drops to 0 or below. */
  predicate StopsMonitor(s: SectionState, t: int) {
    Get(s.refCount, t) - 1 <= 0
  }

  /** Begin's effect on the counters: one more call and one more level for `t`, nobody else touched. */
  lemma BeginCounters(s: SectionState, t: int, now: int)
    ensures var r := AfterBegin(s, t, now);
      && Get(r.callCount, t) == Get(s.callCount, t) + 1
      && r.totalCallCount == s.totalCallCount + 1
      && Get(r.refCount, t) == Get(s.refCount, t) + 1
      && r.totalRef == s.totalRef + 1
      && (!StartsMonitor(s, t) ==> r.beginTime == s.beginTime)
      && (StartsMonitor(s, t) ==> r.beginTime == s.beginTime[t := now])
      && r.costTime == s.costTime && r.totalCostTime == s.totalCostTime
      && forall u :: u != t ==> Get(r.callCount, u) == Get(s.callCount, u) && Get(r.refCount, u) == Get(s.refCount, u)
  {
  }

  /** End's effect on the depth and on the cost, case by case. */
  lemma EndCostRule(s: SectionState, t: int, now: int)
    ensures var r := AfterEnd(s, t, now);
      var ref := Get(s.refCount, t) - 1;
      && Get(r.refCount, t) == ref
      && r.totalRef == s.totalRef - 1
      && r.callCount == s.callCount && r.totalCallCount == s.totalCallCount
      && r.beginTime == s.beginTime
      && (ref > 0 || t !in s.beginTime ==> r.costTime == s.costTime && r.totalCostTime == s.totalCostTime)
      && (ref == 0 && t in s.beginTime ==>
            r.costTime == s.costTime[t := Get(s.costTime, t) + (now - s.beginTime[t])]
            && r.totalCostTime == s.totalCostTime + (now - s.beginTime[t]))
      && (ref < 0 && t in s.beginTime ==>
            r.costTime == s.costTime[t := now - s.beginTime[t]]
            && r.totalCostTime == s.totalCostTime + (now - s.beginTime[t]))
      && forall u :: u != t ==> Get(r.refCount, u) == Get(s.refCount, u) && Get(r.costTime, u) == Get(s.costTime, u)
  {
  }

  lemma BeginKeepsSums(s: SectionState, t: int, now: int)
    requires SumsMatch(s)
    ensures SumsMatch(AfterBegin(s, t, now))
  {
    var r := AfterBegin(s, t, now);
    assert r.refCount == s.refCount[t := Get(s.refCount, t) + 1];
    assert r.callCount == s.callCount[t := Get(s.callCount, t) + 1];
    TotalUpdate(s.refCount, t, Get(s.refCount, t) + 1);
    TotalUpdate(s.callCount, t, Get(s.callCount, t) + 1);
  }

  lemma BeginKeepsKeys(s: SectionState, t: int, now: int)
    requires KeysNested(s)
    ensures KeysNested(AfterBegin(s, t, now))
  {
  }

  lemma {:induction false} BeginKeepsConsistent(s: SectionState, t: int, now: int)
    requires Consistent(s)
    ensures Consistent(AfterBegin(s, t, now))
  {
    BeginKeepsSums(s, t, now);
    BeginKeepsKeys(s, t, now);
  }

  lemma EndKeepsSums(s: SectionState, t: int, now: int)
    requires SumsMatch(s)
    ensures SumsMatch(AfterEnd(s, t, now))
  {
    var r := AfterEnd(s, t, now);
    var ref := Get(s.refCount, t) - 1;
    if ref <= 0 && t in s.beginTime {
      assert r.refCount == s.refCount[t := ref] && r.totalRef == s.totalRef - 1;
    } else {
      assert r == s.(refCount := s.refCount[t := ref], totalRef := s.totalRef - 1);
    }
    assert r.callCount == s.callCount && r.totalCallCount == s.totalCallCount;
    TotalUpdate(s.refCount, t, ref);
  }

  lemma EndKeepsKeys(s: SectionState, t: int, now: int)
    requires KeysNested(s)
    ensures KeysNested(AfterEnd(s, t, now))
  {
  }

  lemma {:induction false} EndKeepsConsistent(s: SectionState, t: int, now: int)
    requires Consistent(s)
    ensures Consistent(AfterEnd(s, t, now))
  {
    EndKeepsSums(s, t, now);
    EndKeepsKeys(s, t, now);
  }

  /** One instrumentation call on a section, by thread and clock value. */
  datatype Call = BeginCall(thread: int, time: int) | EndCall(thread: int, time: int)

  function Apply(s: SectionState, c: Call): SectionState {
    match c
    case BeginCall(t, now) => AfterBegin(s, t, now)
    case EndCall(t, now) => AfterEnd(s, t, now)
  }

  /** The section after a sequence of calls, each an atomic step under the section lock. */
  function Run(s: SectionState, calls: seq<Call>): SectionState
    decreases |calls|
  {
    if calls == [] then s else Run(Apply(s, calls[0]), calls[1..])
  }

  function CountBegins(calls: seq<Call>): nat {
    if calls == [] then 0 else (if calls[0].BeginCall? then 1 else 0) + CountBegins(calls[1..])
  }

  function CountEnds(calls: seq<Call>): nat {
    if calls == [] then 0 else (if calls[0].EndCall? then 1 else 0) + CountEnds(calls[1..])
  }

  lemma {:induction false} RunAppend(s: SectionState, a: seq<Call>, b: seq<Call>)
    ensures Run(s, a + b) == Run(Run(s, a), b)
    decreases |a|
  {
    if a == [] {
      assert a + b == b;
    } else {
      assert (a + b)[0] == a[0] && (a + b)[1..] == a[1..] + b;
      RunAppend(Apply(s, a[0]), a[1..], b);
    }
  }

  /**
   * Over any interleaving of calls from any threads the invariant holds, the
   * total call count grows by the number of Begins, and the total depth by
   * Begins minus Ends.
   */
  lemma {:induction false} RunCounts(s: SectionState, calls: seq<Call>)
    requires Consistent(s)
    ensures var r := Run(s, calls);
      && Consistent(r)
      && r.totalCallCount == s.totalCallCount + CountBegins(calls)
      && r.totalRef == s.totalRef + CountBegins(calls) - CountEnds(calls)
    decreases |calls|
  {
    if calls != [] {
      var c := calls[0];
      if c.BeginCall? {
        BeginKeepsConsistent(s, c.thread, c.time);
      } else {
        EndKeepsConsistent(s, c.thread, c.time);
      }
      RunCounts(Apply(s, c), calls[1..]);
    }
  }

  /**
   * A run from a fresh section with as many Ends as Begins leaves no
   * reference outstanding, so its report carries no "Not Match" line, and
   * the total call count is the number of Begins.
   */
  lemma BalancedRunMatches(calls: seq<Call>)
    requires CountBegins(calls) == CountEnds(calls)
    ensures Run(Initial, calls).totalRef == 0
    ensures Run(Initial, calls).totalCallCount == CountBegins(calls)
  {
    assert Consistent(Initial);
    RunCounts(Initial, calls);
  }

  function Begins(t: int, times: seq<int>): (r: seq<Call>)
    ensures |r| == |times|
    ensures forall i :: 0 <= i < |times| ==> r[i] == BeginCall(t, times[i])
  {
    seq(|times|, i requires 0 <= i < |times| => BeginCall(t, times[i]))
  }

  function Ends(t: int, times: seq<int>): (r: seq<Call>)
    ensures |r| == |times|
    ensures forall i :: 0 <= i < |times| ==> r[i] == EndCall(t, times[i])
  {
    seq(|times|, i requires 0 <= i < |times| => EndCall(t, times[i]))
  }

  /** Re-entering a section the thread is already inside never moves its begin time. */
  lemma {:induction false} BeginsWhileInside(s: SectionState, t: int, times: seq<int>)
    requires Get(s.refCount, t) >= 1
    ensures var r := Run(s, Begins(t, times));
      && Get(r.refCount, t) == Get(s.refCount, t) + |times|
      && Get(r.callCount, t) == Get(s.callCount, t) + |times|
      && r.totalCallCount == s.totalCallCount + |times|
      && r.totalRef == s.totalRef + |times|
      && r.beginTime == s.beginTime
      && r.costTime == s.costTime && r.totalCostTime == s.totalCostTime
    decreases |times|
  {
    if times != [] {
      var b := Begins(t, times);
      assert b[1..] == Begins(t, times[1..]);
      BeginsWhileInside(AfterBegin(s, t, times[0]), t, times[1..]);
    }
  }

  /** Leaving an inner level charges nothing. */
  lemma {:induction false} EndsWhileNested(s: SectionState, t: int, times: seq<int>)
    requires Get(s.refCount, t) > |times|
    ensures var r := Run(s, Ends(t, times));
      && Get(r.refCount, t) == Get(s.refCount, t) - |times|
      && r.totalRef == s.totalRef - |times|
      && r.callCount == s.callCount && r.totalCallCount == s.totalCallCount
      && r.beginTime == s.beginTime
      && r.costTime == s.costTime && r.totalCostTime == s.totalCostTime
    decreases |times|
  {
    if times != [] {
      var e := Ends(t, times);
      assert e[1..] == Ends(t, times[1..]);
      EndsWhileNested(AfterEnd(s, t, times[0]), t, times[1..]);
    }
  }

  /** Entering from outside: the first Begin records the time, the rest only nest. */
  lemma BeginsFromOutside(s: SectionState, t: int, bs: seq<int>)
    requires |bs| >= 1 && Get(s.refCount, t) == 0
    ensures var r := Run(s, Begins(t, bs));
      && Get(r.refCount, t) == |bs|
      && Get(r.callCount, t) == Get(s.callCount, t) + |bs|
      && r.totalCallCount == s.totalCallCount + |bs|
      && r.totalRef == s.totalRef + |bs|
      && t in r.beginTime && r.beginTime[t] == bs[0]
      && r.costTime == s.costTime && r.totalCostTime == s.totalCostTime
  {
    var s1 := AfterBegin(s, t, bs[0]);
    BeginsWhileInside(s1, t, bs[1..]);
    assert Begins(t, bs) == [BeginCall(t, bs[0])] + Begins(t, bs[1..]);
    RunAppend(s, [BeginCall(t, bs[0])], Begins(t, bs[1..]));
    assert Run(s, [BeginCall(t, bs[0])]) == s1;
  }

  /** Leaving to outside: only the last End, the one reaching depth 0, charges. */
  lemma EndsToOutside(s: SectionState, t: int, es: seq<int>)
    requires |es| >= 1 && Get(s.refCount, t) == |es| && t in s.beginTime
    ensures var r := Run(s, Ends(t, es));
      && Get(r.refCount, t) == 0
      && r.totalRef == s.totalRef - |es|
      && r.callCount == s.callCount && r.totalCallCount == s.totalCallCount
      && Get(r.costTime, t) == Get(s.costTime, t) + (es[|es| - 1] - s.beginTime[t])
      && r.totalCostTime == s.totalCostTime + (es[|es| - 1] - s.beginTime[t])
  {
    var n := |es|;
    EndsWhileNested(s, t, es[..n - 1]);
    var s3 := Run(s, Ends(t, es[..n - 1]));
    assert Ends(t, es) == Ends(t, es[..n - 1]) + [EndCall(t, es[n - 1])];
    RunAppend(s, Ends(t, es[..n - 1]), [EndCall(t, es[n - 1])]);
    assert Run(s3, [EndCall(t, es[n - 1])]) == AfterEnd(s3, t, es[n - 1]);
  }

  /**
   * Recursion collapses to one measurement: N nested Begins on a thread that
   * was outside the section, followed by N Ends, charge exactly the time from
   * the first Begin to the last End, and count N calls.
   */
  lemma NestedPairsChargeOneInterval(s: SectionState, t: int, bs: seq<int>, es: seq<int>)
    requires |bs| == |es| >= 1
    requires Get(s.refCount, t) == 0
    ensures var r := Run(s, Begins(t, bs) + Ends(t, es));
      && Get(r.costTime, t) == Get(s.costTime, t) + (es[|es| - 1] - bs[0])
      && r.totalCostTime == s.totalCostTime + (es[|es| - 1] - bs[0])
      && Get(r.callCount, t) == Get(s.callCount, t) + |bs|
      && r.totalCallCount == s.totalCallCount + |bs|
      && Get(r.refCount, t) == 0
      && r.totalRef == s.totalRef
  {
    BeginsFromOutside(s, t, bs);
    EndsToOutside(Run(s, Begins(t, bs)), t, es);
    RunAppend(s, Begins(t, bs), Ends(t, es));
  }

  /** The section total cost is the sum of the per-thread costs. */
  ghost predicate CostBalanced(s: SectionState) {
    s.totalCostTime == Total(s.costTime)
  }

  lemma BeginKeepsCostBalanced(s: SectionState, t: int, now: int)
    requires CostBalanced(s)
    ensures CostBalanced(AfterBegin(s, t, now))
  {
  }

  /** A matched End, one that finds the thread inside the section, keeps the costs balanced. */
  lemma {:induction false} MatchedEndKeepsCostBalanced(s: SectionState, t: int, now: int)
    requires CostBalanced(s)
    requires Get(s.refCount, t) >= 1
    ensures CostBalanced(AfterEnd(s, t, now))
  {
    if Get(s.refCount, t) == 1 && t in s.beginTime {
      var cost := now - s.beginTime[t];
      TotalUpdate(s.costTime, t, Get(s.costTime, t) + cost);
    }
  }

  /**
   * A surplus End overwrites the thread's cost but still adds to the total,
   * so the total stops being the sum of the per-thread costs: Begin at 0,
   * End at 10, End again at 30 leaves the thread at 30 and the total at 40.
   */
  lemma SurplusEndUnbalances()
    ensures var r := Run(Initial, [BeginCall(1, 0), EndCall(1, 10), EndCall(1, 30)]);
      && r.costTime == map[1 := 30]
      && r.totalCostTime == 40
      && r.refCount == map[1 := -1]
      && !CostBalanced(r)
  {
    var calls := [BeginCall(1, 0), EndCall(1, 10), EndCall(1, 30)];
    var s1 := AfterBegin(Initial, 1, 0);
    var s2 := AfterEnd(s1, 1, 10);
    var s3 := AfterEnd(s2, 1, 30);
    assert calls[1..] == [EndCall(1, 10), EndCall(1, 30)];
    assert calls[1..][1..] == [EndCall(1, 30)];
    assert Run(Initial, calls) == s3;
    assert s3.costTime == map[1 := 30];
    TotalRemove(s3.costTime, 1);
    assert s3.costTime - {1} == map[];
  }

  /** The threads currently inside the section. */
  ghost function Active(s: SectionState): set<int> {
    set t | t in s.refCount && s.refCount[t] > 0
  }

  /** No thread has ended more often than it began. */
  ghost predicate NoSurplus(s: SectionState) {
    forall t :: t in s.refCount ==> s.refCount[t] >= 0
  }

  /** The monitor reference count after a Begin by `t`. */
  function MonitorAfterBegin(s: SectionState, t: int, m: int): int {
    if StartsMonitor(s, t) then Resources.AfterStart(m) else m
  }

  /** The monitor reference count after an End by `t`. */
  function MonitorAfterEnd(s: SectionState, t: int, m: int): int {
    if StopsMonitor(s, t) then Resources.AfterStop(m) else m
  }

  /**
   * While no thread ends more often than it begins, the attached monitor's
   * reference count is the number of threads inside the section, so sampling
   * runs exactly while some thread is inside. Begin keeps this.
   */
  lemma BeginTracksActive(s: SectionState, t: int, now: int, m: int)
    requires NoSurplus(s) && m == |Active(s)|
    ensures NoSurplus(AfterBegin(s, t, now))
    ensures MonitorAfterBegin(s, t, m) == |Active(AfterBegin(s, t, now))|
  {
    var r := AfterBegin(s, t, now);
    if Get(s.refCount, t) == 0 {
      assert t !in Active(s);
      assert Active(r) == Active(s) + {t};
    } else {
      assert Active(r) == Active(s);
    }
  }

  /** A matched End keeps the monitor count equal to the number of threads inside. */
  lemma MatchedEndTracksActive(s: SectionState, t: int, now: int, m: int)
    requires NoSurplus(s) && m == |Active(s)|
    requires Get(s.refCount, t) >= 1
    ensures NoSurplus(AfterEnd(s, t, now))
    ensures MonitorAfterEnd(s, t, m) == |Active(AfterEnd(s, t, now))|
  {
    var r := AfterEnd(s, t, now);
    assert t in Active(s);
    if Get(s.refCount, t) == 1 {
      assert Active(r) == Active(s) - {t};
    } else {
      assert Active(r) == Active(s);
    }
  }

  /** One "Thread Id" line of the section report. */
  datatype ThreadLine = ThreadLine(costTime: int, callCount: int)

  /** The CPU and memory lines: peaks and averages, memory in KiB. */
  datatype ResourceLines = ResourceLines(cpuPeak: int, cpuAvg: int, memoryPeakK: int, memoryAvgK: int)

  /**
   * What PerformanceSection::Serialize writes, as a value: the mismatch
   * warning, one line per thread that has a cost, the totals, and the
   * resource lines when a monitor is attached.
   */
  datatype SectionReport = SectionReport(
    notMatch: bool,
    threads: map<int, ThreadLine>,
    totalCostTime: int,
    totalCallCount: int,
    resources: Option<ResourceLines>)

  function Serialized(s: SectionState, monitor: Option<(Resources.Info, Resources.Info)>): SectionReport {
    SectionReport(
      s.totalRef != 0,
      map t | t in s.costTime :: ThreadLine(s.costTime[t], Get(s.callCount, t)),
      s.totalCostTime,
      s.totalCallCount,
      match monitor
      case None => None
      case Some(infos) =>
        Some(ResourceLines(infos.0.peak, infos.0.avg,
                           Resources.TruncDiv(infos.1.peak, 1024), Resources.TruncDiv(infos.1.avg, 1024))))
  }

  /**
   * The report of a section after a run with as many Ends as Begins has no
   * "Not Match" line, and its call lines are the exact per-thread counts.
   */
  lemma BalancedReportHasNoWarning(calls: seq<Call>, monitor: Option<(Resources.Info, Resources.Info)>)
    requires CountBegins(calls) == CountEnds(calls)
    ensures var r := Serialized(Run(Initial, calls), monitor);
      && !r.notMatch
      && r.totalCallCount == CountBegins(calls)
  {
    BalancedRunMatches(calls);
  }

  /** A run from a fresh section with more Begins than Ends, or fewer, is reported as "Not Match". */
  lemma {:induction false} UnbalancedReportWarns(calls: seq<Call>, monitor: Option<(Resources.Info, Resources.Info)>)
    requires CountBegins(calls) != CountEnds(calls)
    ensures Serialized(Run(Initial, calls), monitor).notMatch
  {
    assert Consistent(Initial);
    RunCounts(Initial, calls);
  }

  /**
   * In a consistent section every thread with a cost has a call count, so the
   * report's `_callCountMap[t]` reads a recorded count and never inserts one.
   */
  lemma SerializedThreadLines(s: SectionState, monitor: Option<(Resources.Info, Resources.Info)>)
    requires Consistent(s)
    ensures var r := Serialized(s, monitor);
      && r.threads.Keys == s.costTime.Keys
      && forall t :: t in r.threads ==> t in s.callCount && r.threads[t] == ThreadLine(s.costTime[t], s.callCount[t])
  {
  }

  /**
   * PerformanceSection: the per-thread StatisMaps and their totals, and the
   * optional resource monitor.
   */
  class PerformanceSection {
    var beginTimeMap: map<int, int>
    var costTimeMap: map<int, int>
    var totalCostTime: int
    var refCountMap: map<int, int>
    var totalRef: int
    var callCountMap: map<int, int>
    var totalCallCount: int
    const rsStatistics: Resources.ResourceStatistics?

    function State(): SectionState
      reads this
    {
      SectionState(callCountMap, totalCallCount, refCountMap, totalRef,
                   beginTimeMap, costTimeMap, totalCostTime)
    }

    /** The objects the section owns: itself and its monitor with the monitor's two infos. */
    function Repr(): set<object> {
      {this} + if rsStatistics == null then {}
               else {rsStatistics, rsStatistics.cpuInfo, rsStatistics.memoryInfo}
    }

    ghost predicate Valid()
      reads this
    {
      Consistent(State())
    }

    /** The constructor, given the monitor the registry attaches (or none). */
    constructor (rs: Resources.ResourceStatistics?)
      ensures State() == Initial
      ensures rsStatistics == rs
      ensures Valid()
    {
      beginTimeMap, costTimeMap, totalCostTime := map[], map[], 0;
      refCountMap, totalRef := map[], 0;
      callCountMap, totalCallCount := map[], 0;
      rsStatistics := rs;
    }

    method Begin(threadId: int, now: int)
      requires Valid()
      modifies this, rsStatistics
      ensures Valid()
      ensures State() == AfterBegin(old(State()), threadId, now)
      ensures rsStatistics != null ==>
        rsStatistics.refCount == MonitorAfterBegin(old(State()), threadId, old(rsStatistics.refCount))
      ensures rsStatistics != null && old(rsStatistics.Valid()) ==> rsStatistics.Valid()
    {
      ghost var s := State();
      var callCount := callCountMap[threadId := Get(callCountMap, threadId) + 1];
      var refCount := Get(refCountMap, threadId);
      var beginTime := beginTimeMap;
      if refCount == 0 {
        beginTime := beginTime[threadId := now];
        if rsStatistics != null {
          var wakes := rsStatistics.StartStatistics();
        }
      }
      callCountMap, beginTimeMap, refCountMap := callCount, beginTime, refCountMap[threadId := refCount + 1];
      totalRef, totalCallCount := totalRef + 1, totalCallCount + 1;
      assert State() == AfterBegin(s, threadId, now);
      BeginKeepsConsistent(s, threadId, now);
    }

    method End(threadId: int, now: int)
      requires Valid()
      modifies this, rsStatistics
      ensures Valid()
      ensures State() == AfterEnd(old(State()), threadId, now)
      ensures rsStatistics != null ==>
        rsStatistics.refCount == MonitorAfterEnd(old(State()), threadId, old(rsStatistics.refCount))
      ensures rsStatistics != null && old(rsStatistics.Valid()) ==> rsStatistics.Valid()
    {
      ghost var s := State();
      var refCount := Get(refCountMap, threadId) - 1;
      var costTime, total := costTimeMap, totalCostTime;
      if refCount <= 0 {
        if threadId in beginTimeMap {
          var cost := now - beginTimeMap[threadId];
          if refCount == 0 {
            costTime := costTime[threadId := Get(costTime, threadId) + cost];
          } else {
            costTime := costTime[threadId := cost];
          }
          total := total + cost;
        }
        if rsStatistics != null {
          rsStatistics.StopStatistics();
        }
      }
      refCountMap, totalRef := refCountMap[threadId := refCount], totalRef - 1;
      costTimeMap, totalCostTime := costTime, total;
      assert State() == AfterEnd(s, threadId, now);
      EndKeepsConsistent(s, threadId, now);
    }

    /**
     * PerformanceSection::Serialize, as the value it writes. Reading
     * `_callCountMap[t]` for a thread with a cost never inserts, since such a
     * thread has begun (Consistent).
     */
    function Serialize(): SectionReport
      reads Repr()
    {
      Serialized(State(),
        if rsStatistics == null then None
        else Some((rsStatistics.cpuInfo.Value(), rsStatistics.memoryInfo.Value())))
    }
  }
}

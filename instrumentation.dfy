/**
 * The instrumentation macros of Performance.h: ADD_PERFORMANCE_SECTION_BEGIN
 * creates and begins a section only while profiling is on, and
 * ADD_PERFORMANCE_SECTION_END ends it only when the begin created one.
 * The file, function and line the macros pass are parameters here.
 */
module Instrumentation {
  import opened Options
  import opened CallSite
  import opened Sections
  import opened Registry

  /**
   * ADD_PERFORMANCE_SECTION_BEGIN: the pointer PPS_sign, null unless the
   * profiler bit is set. `base` is the section's state just before Begin.
   * Either way the registry stays valid and grows only by new objects, so
   * the next begin may follow.
   */
  method SectionBegin(options: OptionManager, perf: Performance,
                      path: Bytes, funcName: Bytes, line: int, desc: Bytes,
                      isStatistics: bool, pid: int, threadId: int, now: int)
    returns (pps: PerformanceSection?, ghost base: SectionState)
    requires perf.Valid() && perf.SectionsValid()
    modifies perf, perf.Repr()
    ensures perf.Valid() && perf.SectionsValid()
    ensures !Has(old(options.flag), PROFILER) ==> pps == null && unchanged(perf) && unchanged(old(perf.Repr()))
    ensures Has(old(options.flag), PROFILER) ==>
      && pps != null && pps.Valid()
      && Created(old(perf.entries), perf.entries, MakeNode(path, funcName, line, desc), pps)
      && pps.State() == AfterBegin(base, threadId, now)
    ensures Has(old(options.flag), PROFILER) && fresh(pps) ==> base == Initial
    ensures Has(old(options.flag), PROFILER) && !fresh(pps) ==> base == old(pps.State())
    ensures Has(old(options.flag), PROFILER) && fresh(pps) ==> (pps.rsStatistics != null <==> isStatistics)
    ensures Has(old(options.flag), PROFILER) && fresh(pps) && pps.rsStatistics != null ==>
      pps.rsStatistics.refCount == MonitorAfterBegin(base, threadId, 0) && pps.rsStatistics.Valid()
    ensures Has(old(options.flag), PROFILER) && !fresh(pps) && pps.rsStatistics != null ==>
      pps.rsStatistics.refCount == MonitorAfterBegin(base, threadId, old(pps.rsStatistics.refCount))
    ensures fresh(perf.Repr() - old(perf.Repr()))
  {
    pps := null;
    base := Initial;
    var flag := options.GetOptions();
    if Has(flag, PROFILER) {
      pps, base := CreateAndBegin(perf, path, funcName, line, desc, isStatistics, pid, threadId, now);
    }
  }

  /** The body of the macro's `if`: CreateSection, then Begin on the section it returns. */
  method CreateAndBegin(perf: Performance, path: Bytes, funcName: Bytes, line: int, desc: Bytes,
                        isStatistics: bool, pid: int, threadId: int, now: int)
    returns (pps: PerformanceSection, ghost base: SectionState)
    requires perf.Valid() && perf.SectionsValid()
    modifies perf, perf.Repr()
    ensures perf.Valid() && perf.SectionsValid() && pps.Valid()
    ensures Created(old(perf.entries), perf.entries, MakeNode(path, funcName, line, desc), pps)
    ensures pps.State() == AfterBegin(base, threadId, now)
    ensures fresh(pps) ==> base == Initial
    ensures !fresh(pps) ==> base == old(pps.State())
    ensures fresh(pps) ==> (pps.rsStatistics != null <==> isStatistics)
    ensures fresh(pps) && pps.rsStatistics != null ==>
      pps.rsStatistics.refCount == MonitorAfterBegin(base, threadId, 0) && pps.rsStatistics.Valid()
    ensures !fresh(pps) && pps.rsStatistics != null ==>
      pps.rsStatistics.refCount == MonitorAfterBegin(base, threadId, old(pps.rsStatistics.refCount))
    ensures fresh(perf.Repr() - old(perf.Repr()))
  {
    pps := perf.CreateSection(path, funcName, line, desc, isStatistics, pid);
    base := pps.State();
    assert fresh(pps) ==> base == Initial;
    BeginRegistered(perf, MakeNode(path, funcName, line, desc), pps, threadId, now);
  }

  /**
   * Begin on a section the registry holds: the registry and every other
   * section are left as they were, so every section is still valid.
   */
  method BeginRegistered(perf: Performance, ghost node: Node, pps: PerformanceSection, threadId: int, now: int)
    requires perf.Valid() && perf.SectionsValid() && MapsTo(perf.entries, node, pps)
    modifies pps, pps.rsStatistics
    ensures perf.SectionsValid() && pps.Valid()
    ensures pps.State() == AfterBegin(old(pps.State()), threadId, now)
    ensures pps.rsStatistics != null ==>
      pps.rsStatistics.refCount == MonitorAfterBegin(old(pps.State()), threadId, old(pps.rsStatistics.refCount))
    ensures pps.rsStatistics != null && old(pps.rsStatistics.Valid()) ==> pps.rsStatistics.Valid()
  {
    assert pps.Valid();
    pps.Begin(threadId, now);
  }

  /** ADD_PERFORMANCE_SECTION_END: ends the section when the begin produced one. */
  method SectionEnd(pps: PerformanceSection?, threadId: int, now: int)
    requires pps != null ==> pps.Valid()
    modifies if pps != null then {pps, pps.rsStatistics} else {}
    ensures pps != null ==> pps.Valid() && pps.State() == AfterEnd(old(pps.State()), threadId, now)
    ensures pps != null && pps.rsStatistics != null ==>
      pps.rsStatistics.refCount == MonitorAfterEnd(old(pps.State()), threadId, old(pps.rsStatistics.refCount))
  {
    if pps != null {
      pps.End(threadId, now);
    }
  }

  /** The option manager is no object of any section. */
  lemma OptionsOutsideRegistry(options: OptionManager, perf: Performance)
    ensures options !in perf.Repr()
  {
  }

  /**
   * Two ADD_PERFORMANCE_SECTION_BEGINs in a row, as nested call sites issue
   * them: the second may follow the first, and while profiling is on both
   * sections end up in the registry under their own call sites.
   */
  method BeginTwoSites(options: OptionManager, perf: Performance,
                       path1: Bytes, func1: Bytes, line1: int, desc1: Bytes,
                       path2: Bytes, func2: Bytes, line2: int, desc2: Bytes,
                       threadId: int, now1: int, now2: int)
    returns (p1: PerformanceSection?, p2: PerformanceSection?)
    requires perf.Valid() && perf.SectionsValid()
    modifies perf, perf.Repr()
    ensures perf.Valid() && perf.SectionsValid()
    ensures !Has(old(options.flag), PROFILER) ==> p1 == null && p2 == null && perf.entries == old(perf.entries)
    ensures Has(old(options.flag), PROFILER) ==>
      && p1 != null && p2 != null
      && MapsTo(perf.entries, MakeNode(path1, func1, line1, desc1), p1)
      && MapsTo(perf.entries, MakeNode(path2, func2, line2, desc2), p2)
  {
    ghost var base: SectionState;
    ghost var on := Has(options.flag, PROFILER);
    ghost var start := perf.entries;
    OptionsOutsideRegistry(options, perf);
    p1, base := SectionBegin(options, perf, path1, func1, line1, desc1, false, 0, threadId, now1);
    assert Has(options.flag, PROFILER) == on;
    ghost var between := perf.entries;
    OptionsOutsideRegistry(options, perf);
    p2, base := SectionBegin(options, perf, path2, func2, line2, desc2, false, 0, threadId, now2);
    if on {
      CreatedMapsTo(start, between, MakeNode(path1, func1, line1, desc1), p1);
      CreatedMapsTo(between, perf.entries, MakeNode(path2, func2, line2, desc2), p2);
      CreatedKeepsMapsTo(between, perf.entries, MakeNode(path2, func2, line2, desc2), p2,
                         MakeNode(path1, func1, line1, desc1), p1);
    }
  }

  /**
   * A begin skipped while profiling was off leaves the registry alone, and its
   * end does nothing even when profiling is switched on in between.
   */
  method SkippedBeginIsNeverEnded(options: OptionManager, perf: Performance,
                                  path: Bytes, funcName: Bytes, line: int, desc: Bytes,
                                  threadId: int, t0: int, t1: int)
    requires perf.Valid() && perf.SectionsValid()
    requires !Has(options.flag, PROFILER)
    modifies options, perf, perf.Repr()
    ensures perf.entries == old(perf.entries)
    ensures forall k :: 0 <= k < |perf.entries| ==>
      perf.entries[k].section.State() == old(perf.entries[k].section.State())
  {
    OptionsOutsideRegistry(options, perf);
    var pps, _ := SectionBegin(options, perf, path, funcName, line, desc, false, 0, threadId, t0);
    options.SetOptions(PROFILER);
    SectionEnd(pps, threadId, t1);
  }

  /**
   * Two CreateSection calls for one call site give one section, and the map
   * keeps the description of the call that inserted it.
   */
  method SameSiteTwice(perf: Performance, path: Bytes, funcName: Bytes, line: int,
                       desc1: Bytes, desc2: Bytes, pid: int)
    returns (s1: PerformanceSection, s2: PerformanceSection)
    requires perf.Valid() && perf.SectionsValid()
    modifies perf
    ensures s1 == s2
    ensures |perf.entries| <= |old(perf.entries)| + 1
    ensures Find(old(perf.entries), MakeNode(path, funcName, line, desc1)).None? ==>
      exists i :: 0 <= i < |perf.entries| && perf.entries[i] == Entry(MakeNode(path, funcName, line, desc1), s1)
  {
    ghost var before := perf.entries;
    var n1 := MakeNode(path, funcName, line, desc1);
    s1 := perf.CreateSection(path, funcName, line, desc1, false, pid);
    ghost var between := perf.entries;
    ghost var j := Find(between, n1).value;
    assert Same(between[j].node, MakeNode(path, funcName, line, desc2));
    FindUnique(between, MakeNode(path, funcName, line, desc2), j);
    if Find(before, n1).None? {
      InsertedAddsEntry(before, Entry(n1, s1));
      assert between[Position(before, n1)] == Entry(n1, s1);
    }
    s2 := perf.CreateSection(path, funcName, line, desc2, true, pid);
  }
}

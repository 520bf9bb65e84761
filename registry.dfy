/**
 * The registry Performance (Performance.h, Performance.cpp): the
 * std::map from PerformanceNode to section, lookup-or-insert by
 * CreateSection, and the report _OutPut builds and OutPut writes.
 */
module Registry {
  import opened Wrappers
  import opened CallSite
  import opened Options
  import Resources
  import opened Sections

  /** One key/value pair of the PerformanceMap. */
  datatype Entry = Entry(node: Node, section: PerformanceSection)

  /**
   * The map's in-order sequence: strictly increasing under operator<, so no
   * two keys are equal under operator==.
   */
  ghost predicate KeysSorted(es: seq<Entry>) {
    forall i, j {:trigger Less(es[i].node, es[j].node)} :: 0 <= i < j < |es| ==> Less(es[i].node, es[j].node)
  }

  /** Each entry owns its own section object. */
  ghost predicate SectionsDistinct(es: seq<Entry>) {
    forall i, j {:trigger es[i].section, es[j].section} :: 0 <= i < j < |es| ==> es[i].section != es[j].section
  }

  /** The objects of all sections in `es`. */
  function Footprint(es: seq<Entry>): set<object> {
    set e, o | e in es && o in e.section.Repr() :: o
  }

  /** Every section's objects lie in the footprint. */
  lemma InFootprint(es: seq<Entry>, k: int)
    requires 0 <= k < |es|
    ensures es[k].section.Repr() <= Footprint(es)
  {
    assert es[k] in es;
  }

  /** Dropping the last entry only shrinks the footprint. */
  lemma FootprintOfPrefix(es: seq<Entry>)
    requires es != []
    ensures Footprint(es[..|es| - 1]) <= Footprint(es)
  {
    forall o | o in Footprint(es[..|es| - 1]) ensures o in Footprint(es) {
      var e :| e in es[..|es| - 1] && o in e.section.Repr();
      assert e in es;
    }
  }

  /** In a sorted map at most one key is equal to a given node under operator==. */
  lemma SortedKeysUnique(es: seq<Entry>, i: int, k: int, node: Node)
    requires KeysSorted(es)
    requires 0 <= i < |es| && 0 <= k < |es|
    requires Same(es[i].node, node) && Same(es[k].node, node)
    ensures i == k
  {
    LessTrichotomy(es[i].node, es[k].node);
  }

  /** Inserting a key between its neighbours keeps the map sorted. */
  lemma InsertKeepsSorted(es: seq<Entry>, x: Entry)
    requires KeysSorted(es)
    requires forall k :: 0 <= k < Position(es, x.node) ==> Less(es[k].node, x.node)
    requires forall k :: Position(es, x.node) <= k < |es| ==> Less(x.node, es[k].node)
    ensures KeysSorted(Inserted(es, x))
  {
    var i := Position(es, x.node);
    var r := Inserted(es, x);
    forall a, b | 0 <= a < b < |r| ensures Less(r[a].node, r[b].node) {
      if b < i {
        assert r[a] == es[a] && r[b] == es[b];
      } else if b == i {
        assert r[a] == es[a] && r[b] == x;
      } else if a < i {
        assert r[a] == es[a] && r[b] == es[b - 1];
        LessTransitive(es[a].node, x.node, es[b - 1].node);
      } else if a == i {
        assert r[a] == x && r[b] == es[b - 1];
      } else {
        assert r[a] == es[a - 1] && r[b] == es[b - 1];
      }
    }
  }

  /** Inserting a section no entry holds keeps the sections distinct. */
  lemma InsertKeepsDistinct(es: seq<Entry>, x: Entry)
    requires SectionsDistinct(es)
    requires forall k :: 0 <= k < |es| ==> es[k].section != x.section
    ensures SectionsDistinct(Inserted(es, x))
  {
    var i := Position(es, x.node);
    var r := Inserted(es, x);
    forall a, b | 0 <= a < b < |r| ensures r[a].section != r[b].section {
      if b < i {
        assert r[a] == es[a] && r[b] == es[b];
      } else if b == i {
        assert r[a] == es[a] && r[b] == x;
      } else if a < i {
        assert r[a] == es[a] && r[b] == es[b - 1];
      } else if a == i {
        assert r[a] == x && r[b] == es[b - 1];
      } else {
        assert r[a] == es[a - 1] && r[b] == es[b - 1];
      }
    }
  }

  /**
   * `_ppMap.find(node)`: the index of the key equal to `node`, if any. The
   * map compares keys by the order, and LessTrichotomy shows that two keys
   * neither of which is below the other are exactly those operator== equates.
   */
  function Find(es: seq<Entry>, node: Node): (r: Option<nat>)
    ensures r.Some? ==> r.value < |es| && Same(es[r.value].node, node)
    ensures r.None? <==> forall k :: 0 <= k < |es| ==> !Same(es[k].node, node)
  {
    FindFrom(es, node, 0)
  }

  /** The walk behind Find: the first key from index `i` on equal to `node`. */
  function FindFrom(es: seq<Entry>, node: Node, i: nat): (r: Option<nat>)
    requires i <= |es|
    ensures r.Some? ==> i <= r.value < |es| && Same(es[r.value].node, node)
    ensures r.None? <==> forall k :: i <= k < |es| ==> !Same(es[k].node, node)
    decreases |es| - i
  {
    if i == |es| then None
    else if Same(es[i].node, node) then Some(i)
    else FindFrom(es, node, i + 1)
  }

  /** The map holds `section` under the key operator== equates with `node`. */
  predicate MapsTo(es: seq<Entry>, node: Node, section: PerformanceSection) {
    var r := Find(es, node);
    r.Some? && es[r.value].section == section
  }

  /**
   * How CreateSection leaves the map: unchanged on a hit, the hit's section
   * returned; on a miss the new entry inserted.
   */
  predicate Created(before: seq<Entry>, after: seq<Entry>, node: Node, section: PerformanceSection) {
    match Find(before, node)
    case Some(i) => after == before && section == before[i].section
    case None => after == Inserted(before, Entry(node, section))
  }

  /** After CreateSection find yields the section it returned. */
  lemma CreatedMapsTo(before: seq<Entry>, after: seq<Entry>, node: Node, section: PerformanceSection)
    requires KeysSorted(before) && Created(before, after, node, section)
    ensures MapsTo(after, node, section)
  {
    if Find(before, node).None? {
      InsertedIsFound(before, Entry(node, section));
      InsertedAddsEntry(before, Entry(node, section));
    }
  }

  /** CreateSection drops no entry of the map. */
  lemma CreatedKeepsEntries(before: seq<Entry>, after: seq<Entry>, node: Node, section: PerformanceSection)
    requires Created(before, after, node, section)
    ensures forall e :: e in before ==> e in after
  {
    if Find(before, node).None? {
      InsertedAddsEntry(before, Entry(node, section));
      forall e | e in before ensures e in after {
        assert e in multiset(before);
        assert e in multiset(after);
      }
    }
  }

  /**
   * CreateSection for one node leaves every other key mapped as it was: a hit
   * changes nothing, and an insertion under a missing key moves no other key.
   */
  lemma CreatedKeepsMapsTo(before: seq<Entry>, after: seq<Entry>, node: Node, section: PerformanceSection,
                           other: Node, s: PerformanceSection)
    requires KeysSorted(before) && Created(before, after, node, section)
    requires MapsTo(before, other, s)
    ensures MapsTo(after, other, s)
  {
    if Find(before, node).None? {
      var e := Entry(node, section);
      var i := Find(before, other).value;
      var p := Position(before, node);
      InsertedIsSorted(before, e);
      var j := if i < p then i else i + 1;
      assert after[j] == before[i];
      FindUnique(after, other, j);
    }
  }

  /** In a sorted map, find returns the one key equal to `node`. */
  lemma FindUnique(es: seq<Entry>, node: Node, k: int)
    requires KeysSorted(es) && 0 <= k < |es| && Same(es[k].node, node)
    ensures Find(es, node) == Some(k)
  {
    var r := Find(es, node);
    SortedKeysUnique(es, r.value, k, node);
  }

  /** Where the map places a new key: after exactly the keys below it. */
  function Position(es: seq<Entry>, node: Node): (i: nat)
    ensures i <= |es|
    ensures forall k :: 0 <= k < i ==> Less(es[k].node, node)
    ensures i < |es| ==> !Less(es[i].node, node)
  {
    PositionFrom(es, node, 0)
  }

  /** The walk behind Position: from index `i`, past the keys below `node`. */
  function PositionFrom(es: seq<Entry>, node: Node, i: nat): (r: nat)
    requires i <= |es|
    requires forall k :: 0 <= k < i ==> Less(es[k].node, node)
    ensures i <= r <= |es|
    ensures forall k :: 0 <= k < r ==> Less(es[k].node, node)
    ensures r < |es| ==> !Less(es[r].node, node)
    decreases |es| - i
  {
    if i == |es| || !Less(es[i].node, node) then i else PositionFrom(es, node, i + 1)
  }

  /** In a sorted map lacking `node`, every key from the position on is above it. */
  lemma PositionAbove(es: seq<Entry>, node: Node)
    requires KeysSorted(es) && Find(es, node).None?
    ensures forall k :: Position(es, node) <= k < |es| ==> Less(node, es[k].node)
  {
    var i := Position(es, node);
    forall k | i <= k < |es| ensures Less(node, es[k].node) {
      LessTrichotomy(es[i].node, node);
      if k > i {
        LessTransitive(node, es[i].node, es[k].node);
      }
    }
  }

  /**
   * `_ppMap[node] = section` for a key the map lacks: the entries below the
   * key, then the new entry, then the rest.
   */
  function Inserted(es: seq<Entry>, e: Entry): seq<Entry> {
    var i := Position(es, e.node);
    seq(|es| + 1, k requires 0 <= k <= |es| => if k < i then es[k] else if k == i then e else es[k - 1])
  }

  /** Inserting a valid section into entries whose sections are valid keeps them all valid. */
  lemma InsertedKeepsValid(es: seq<Entry>, e: Entry)
    requires forall k :: 0 <= k < |es| ==> es[k].section.Valid()
    requires e.section.Valid()
    ensures forall k :: 0 <= k < |Inserted(es, e)| ==> Inserted(es, e)[k].section.Valid()
  {
    var i := Position(es, e.node);
    var r := Inserted(es, e);
    forall k | 0 <= k < |r| ensures r[k].section.Valid() {
      if k < i {
        assert r[k] == es[k];
      } else if k > i {
        assert r[k] == es[k - 1];
      }
    }
  }

  /** Inserting a new key keeps the map sorted. */
  lemma InsertedIsSorted(es: seq<Entry>, e: Entry)
    requires KeysSorted(es) && Find(es, e.node).None?
    ensures KeysSorted(Inserted(es, e))
  {
    PositionAbove(es, e.node);
    InsertKeepsSorted(es, e);
  }

  /** Inserting adds exactly the new entry's objects to the footprint. */
  lemma FootprintInserted(es: seq<Entry>, e: Entry)
    ensures Footprint(Inserted(es, e)) == Footprint(es) + e.section.Repr()
  {
    InsertedAddsEntry(es, e);
    var r := Inserted(es, e);
    forall x ensures x in r <==> x in es || x == e {
      assert x in r <==> x in multiset(r);
      assert x in es <==> x in multiset(es);
    }
  }

  /** Inserting adds exactly the new entry. */
  lemma InsertedAddsEntry(es: seq<Entry>, e: Entry)
    ensures |Inserted(es, e)| == |es| + 1
    ensures Inserted(es, e)[Position(es, e.node)] == e
    ensures multiset(Inserted(es, e)) == multiset(es) + multiset{e}
  {
    var i := Position(es, e.node);
    assert Inserted(es, e) == es[..i] + [e] + es[i..];
    assert es == es[..i] + es[i..];
  }

  /** After the insertion find returns the new entry. */
  lemma InsertedIsFound(es: seq<Entry>, e: Entry)
    requires KeysSorted(es) && Find(es, e.node).None?
    ensures Find(Inserted(es, e), e.node) == Some(Position(es, e.node))
  {
    InsertedIsSorted(es, e);
    InsertedAddsEntry(es, e);
    FindUnique(Inserted(es, e), e.node, Position(es, e.node));
  }

  /** One row of the report: a key and what its section serializes. */
  datatype Row = Row(node: Node, section: SectionReport)

  /** A numbered report entry ("NO%d. Description:..."). */
  datatype ReportEntry = ReportEntry(number: nat, row: Row)

  /** The whole report: the profiler start time and the numbered entries. */
  datatype Report = Report(beginTime: int, entries: seq<ReportEntry>)

  /** Where OutPut writes a report. */
  datatype Destination = Console | File

  function RowsOf(es: seq<Entry>): (rows: seq<Row>)
    reads Footprint(es)
    ensures |rows| == |es|
    ensures forall k :: 0 <= k < |es| ==> rows[k].node == es[k].node
  {
    if es == [] then []
    else
      FootprintOfPrefix(es);
      InFootprint(es, |es| - 1);
      var last := es[|es| - 1];
      var prefix := RowsOf(es[..|es| - 1]);
      assert forall k :: 0 <= k < |prefix| ==> prefix[k].node == es[k].node;
      prefix + [Row(last.node, last.section.Serialize())]
  }

  /** Performance::CompareByCallCount: a strictly greater total call count goes first. */
  predicate CompareByCallCount(lhs: Row, rhs: Row) {
    lhs.section.totalCallCount > rhs.section.totalCallCount
  }

  /** Performance::CompareByCostTime: a strictly greater total cost goes first. */
  predicate CompareByCostTime(lhs: Row, rhs: Row) {
    lhs.section.totalCostTime > rhs.section.totalCostTime
  }

  /** The comparator _OutPut hands to std::sort. */
  predicate Precedes(a: Row, b: Row, byCost: bool) {
    if byCost then CompareByCostTime(a, b) else CompareByCallCount(a, b)
  }

  /** Sorted for the comparator: no row is preceded by a later one. */
  ghost predicate SortedFor(rows: seq<Row>, byCost: bool) {
    forall i, j :: 0 <= i < j < |rows| ==> !Precedes(rows[j], rows[i], byCost)
  }

  /** Both comparators are strict weak orders, as std::sort requires. */
  lemma ComparatorsAreStrictWeakOrders(a: Row, b: Row, c: Row, byCost: bool)
    ensures !Precedes(a, a, byCost)
    ensures Precedes(a, b, byCost) && Precedes(b, c, byCost) ==> Precedes(a, c, byCost)
    ensures !Precedes(a, b, byCost) && !Precedes(b, a, byCost) && !Precedes(b, c, byCost) && !Precedes(c, b, byCost)
            ==> !Precedes(a, c, byCost) && !Precedes(c, a, byCost)
  {
  }

  function RowsIn(entries: seq<ReportEntry>): (rows: seq<Row>)
    ensures |rows| == |entries|
    ensures forall k :: 0 <= k < |entries| ==> rows[k] == entries[k].row
  {
    seq(|entries|, k requires 0 <= k < |entries| => entries[k].row)
  }

  /**
   * What _OutPut promises about a report of `rows` under flags `f`: the rows
   * numbered from 1, a permutation of the map's rows, sorted by descending
   * cost when PPCO_SAVE_BY_COST_TIME is set, otherwise by descending call
   * count when PPCO_SAVE_BY_CALL_COUNT is set, otherwise in key order.
   */
  ghost predicate IsReportOf(report: Report, beginTime: int, rows: seq<Row>, f: Flags) {
    var ordered := RowsIn(report.entries);
    && report.beginTime == beginTime
    && (forall k :: 0 <= k < |report.entries| ==> report.entries[k].number == k + 1)
    && multiset(ordered) == multiset(rows)
    && (Has(f, SAVE_BY_COST_TIME) ==> SortedFor(ordered, true))
    && (!Has(f, SAVE_BY_COST_TIME) && Has(f, SAVE_BY_CALL_COUNT) ==> SortedFor(ordered, false))
    && (!Has(f, SAVE_BY_COST_TIME) && !Has(f, SAVE_BY_CALL_COUNT) ==> ordered == rows)
  }

  /** Placing `x` before the first row it precedes keeps the rows sorted. */
  lemma InsertKeepsSortedFor(r: seq<Row>, j: int, x: Row, byCost: bool)
    requires SortedFor(r, byCost) && 0 <= j <= |r|
    requires forall k :: 0 <= k < j ==> !Precedes(x, r[k], byCost)
    requires j < |r| ==> Precedes(x, r[j], byCost)
    ensures SortedFor(r[..j] + [x] + r[j..], byCost)
  {
    var s := r[..j] + [x] + r[j..];
    forall a, b | 0 <= a < b < |s| ensures !Precedes(s[b], s[a], byCost) {
      if b < j {
        assert s[a] == r[a] && s[b] == r[b];
      } else if b == j {
        assert s[a] == r[a] && s[b] == x;
      } else if a < j {
        assert s[a] == r[a] && s[b] == r[b - 1];
      } else if a == j {
        assert s[a] == x && s[b] == r[b - 1];
      } else {
        assert s[a] == r[a - 1] && s[b] == r[b - 1];
      }
    }
  }

  /** The std::sort of vInfos, as an insertion sort: sorted for the comparator and a permutation. */
  method SortRows(rows: seq<Row>, byCost: bool) returns (r: seq<Row>)
    ensures multiset(r) == multiset(rows)
    ensures SortedFor(r, byCost)
  {
    r := [];
    var i := 0;
    while i < |rows|
      invariant 0 <= i <= |rows|
      invariant multiset(r) == multiset(rows[..i])
      invariant SortedFor(r, byCost)
    {
      var x := rows[i];
      var j := 0;
      while j < |r| && !Precedes(x, r[j], byCost)
        invariant 0 <= j <= |r|
        invariant forall k :: 0 <= k < j ==> !Precedes(x, r[k], byCost)
      {
        j := j + 1;
      }
      InsertKeepsSortedFor(r, j, x, byCost);
      assert r == r[..j] + r[j..];
      r := r[..j] + [x] + r[j..];
      assert rows[..i + 1] == rows[..i] + [x];
      i := i + 1;
    }
    assert rows[..|rows|] == rows;
  }

  /** The sort choice of _OutPut: cost time wins over call count; neither keeps key order. */
  method OrderRows(rows: seq<Row>, f: Flags) returns (ordered: seq<Row>)
    ensures multiset(ordered) == multiset(rows)
    ensures Has(f, SAVE_BY_COST_TIME) ==> SortedFor(ordered, true)
    ensures !Has(f, SAVE_BY_COST_TIME) && Has(f, SAVE_BY_CALL_COUNT) ==> SortedFor(ordered, false)
    ensures !Has(f, SAVE_BY_COST_TIME) && !Has(f, SAVE_BY_CALL_COUNT) ==> ordered == rows
  {
    ordered := rows;
    if Has(f, SAVE_BY_COST_TIME) {
      ordered := SortRows(rows, true);
    } else if Has(f, SAVE_BY_CALL_COUNT) {
      ordered := SortRows(rows, false);
    }
  }

  /** The `NO%d.` numbering of the report loop: entry k carries number k + 1. */
  method Number(ordered: seq<Row>) returns (numbered: seq<ReportEntry>)
    ensures RowsIn(numbered) == ordered
    ensures forall k :: 0 <= k < |numbered| ==> numbered[k].number == k + 1
  {
    numbered := [];
    for index := 0 to |ordered|
      invariant |numbered| == index
      invariant forall k :: 0 <= k < index ==> numbered[k] == ReportEntry(k + 1, ordered[k])
    {
      numbered := numbered + [ReportEntry(index + 1, ordered[index])];
    }
  }

  /** The report destinations OutPut renders to, in order: console, then file. */
  function Destinations(f: Flags): seq<Destination> {
    (if Has(f, SAVE_TO_CONSOLE) then [Console] else []) + (if Has(f, SAVE_TO_FILE) then [File] else [])
  }

  /** What OutPut promises: one report of `rows` per selected destination, in order. */
  ghost predicate IsOutputOf(outputs: seq<(Destination, Report)>, beginTime: int, rows: seq<Row>, f: Flags) {
    && |outputs| == |Destinations(f)|
    && forall k :: 0 <= k < |outputs| ==>
         outputs[k].0 == Destinations(f)[k] && IsReportOf(outputs[k].1, beginTime, rows, f)
  }

  /** A report only when a destination bit is set (at most one of each). */
  ghost predicate RenderedTo(outs: seq<(Destination, Report)>, d: Destination, bit: Flags,
                            beginTime: int, rows: seq<Row>, f: Flags) {
    && |outs| == (if Has(f, bit) then 1 else 0)
    && forall k :: 0 <= k < |outs| ==> outs[k].0 == d && IsReportOf(outs[k].1, beginTime, rows, f)
  }

  lemma OutputsConcat(c: seq<(Destination, Report)>, fl: seq<(Destination, Report)>,
                      beginTime: int, rows: seq<Row>, f: Flags)
    requires RenderedTo(c, Console, SAVE_TO_CONSOLE, beginTime, rows, f)
    requires RenderedTo(fl, File, SAVE_TO_FILE, beginTime, rows, f)
    ensures IsOutputOf(c + fl, beginTime, rows, f)
  {
    var o := c + fl;
    forall k | 0 <= k < |o|
      ensures o[k].0 == Destinations(f)[k] && IsReportOf(o[k].1, beginTime, rows, f)
    {
      if k < |c| {
        assert o[k] == c[k];
      } else {
        assert o[k] == fl[k - |c|];
      }
    }
  }

  /** `new PerformanceSection(...)`, with `new ResourceStatistics(pid)` attached when `isStatistics`. */
  method NewSection(isStatistics: bool, pid: int) returns (section: PerformanceSection)
    ensures fresh(section.Repr()) && section.Valid() && section.State() == Initial
    ensures section.rsStatistics != null <==> isStatistics
    ensures section.rsStatistics != null ==> section.rsStatistics.refCount == 0 && section.rsStatistics.Valid()
  {
    var rs: Resources.ResourceStatistics? := null;
    if isStatistics {
      rs := new Resources.ResourceStatistics(pid);
    }
    section := new PerformanceSection(rs);
  }

  /** Performance: the registry of sections and the profiler start time. */
  class Performance {
    const beginTime: int
    var entries: seq<Entry>

    ghost predicate Valid()
      reads this
    {
      KeysSorted(entries) && SectionsDistinct(entries)
    }

    function Repr(): set<object>
      reads this
    {
      Footprint(entries)
    }

    ghost predicate SectionsValid()
      reads this, set k | 0 <= k < |entries| :: entries[k].section
    {
      forall k :: 0 <= k < |entries| ==> entries[k].section.Valid()
    }

    /** The rows of the map in key order, as _OutPut collects them into vInfos. */
    function Rows(): seq<Row>
      reads this, Repr()
    {
      RowsOf(entries)
    }

    /** The constructor, given the start time `time(&_beginTime)` reads. */
    constructor (beginTime: int)
      ensures this.beginTime == beginTime && entries == []
      ensures Valid() && SectionsValid()
    {
      this.beginTime := beginTime;
      entries := [];
    }

    /** `_ppMap[node] = section` for a key the map lacks. */
    method Insert(node: Node, section: PerformanceSection)
      requires Valid() && SectionsValid()
      requires Find(entries, node).None?
      requires forall k :: 0 <= k < |entries| ==> entries[k].section != section
      requires section.Valid()
      modifies this
      ensures entries == Inserted(old(entries), Entry(node, section))
      ensures Repr() == old(Repr()) + section.Repr()
      ensures Valid() && SectionsValid()
    {
      var e := Entry(node, section);
      InsertedIsSorted(entries, e);
      InsertKeepsDistinct(entries, e);
      FootprintInserted(entries, e);
      InsertedKeepsValid(entries, e);
      entries := Inserted(entries, e);
    }

    /**
     * CreateSection: finds the call site's section under operator==; on a
     * miss creates one, with a resource monitor for process `pid` when
     * `isStatistics`, and inserts it. Either way find now yields it.
     */
    method CreateSection(path: Bytes, funcName: Bytes, line: int, desc: Bytes,
                         isStatistics: bool, pid: int) returns (section: PerformanceSection)
      requires Valid() && SectionsValid()
      modifies this
      ensures Valid() && SectionsValid() && section.Valid()
      ensures MapsTo(entries, MakeNode(path, funcName, line, desc), section)
      ensures Created(old(entries), entries, MakeNode(path, funcName, line, desc), section)
      ensures fresh(section) ==> fresh(section.Repr()) && (section.rsStatistics != null <==> isStatistics)
      ensures section.Repr() <= old(Repr()) || fresh(section.Repr())
      ensures fresh(section) ==> section.State() == Initial
      ensures !fresh(section) ==> section.State() == old(section.State())
      ensures fresh(Repr() - old(Repr()))
      ensures fresh(section) && section.rsStatistics != null ==>
        section.rsStatistics.refCount == 0 && section.rsStatistics.Valid()
    {
      var node := MakeNode(path, funcName, line, desc);
      var it := Find(entries, node);
      if it.Some? {
        section := entries[it.value].section;
        assert entries[it.value] in entries;
        InFootprint(entries, it.value);
        assert section.Repr() <= old(Repr());
        assert section in section.Repr();
        assert !fresh(section);
      } else {
        section := AddSection(node, isStatistics, pid);
      }
    }

    /**
     * The miss branch of CreateSection: a new section, with a new monitor
     * when `isStatistics`, inserted under `node`.
     */
    method AddSection(node: Node, isStatistics: bool, pid: int) returns (section: PerformanceSection)
      requires Valid() && SectionsValid() && Find(entries, node).None?
      modifies this
      ensures Valid() && SectionsValid() && section.Valid()
      ensures MapsTo(entries, node, section)
      ensures entries == Inserted(old(entries), Entry(node, section))
      ensures fresh(section.Repr()) && Repr() == old(Repr()) + section.Repr()
      ensures section.State() == Initial
      ensures section.rsStatistics != null <==> isStatistics
      ensures section.rsStatistics != null ==> section.rsStatistics.refCount == 0 && section.rsStatistics.Valid()
    {
      section := NewSection(isStatistics, pid);
      assert section.rsStatistics != null ==>
        fresh(section.rsStatistics) && fresh(section.rsStatistics.cpuInfo) && fresh(section.rsStatistics.memoryInfo);
      InsertedIsFound(entries, Entry(node, section));
      Insert(node, section);
    }

    /** The loop that pushes every map iterator into vInfos, in key order. */
    method Collect() returns (rows: seq<Row>)
      ensures rows == Rows()
    {
      rows := [];
      var i := 0;
      while i < |entries|
        invariant 0 <= i <= |entries|
        invariant rows == RowsOf(entries[..i])
      {
        assert entries[..i + 1][..i] == entries[..i];
        rows := rows + [Row(entries[i].node, entries[i].section.Serialize())];
        i := i + 1;
      }
      assert entries[..i] == entries;
    }

    /**
     * _OutPut: collects the map's entries into vInfos in key order, sorts
     * them as the options say and numbers them from 1.
     */
    method BuildReport(options: OptionManager) returns (report: Report)
      ensures IsReportOf(report, beginTime, Rows(), options.flag)
    {
      var flag := options.GetOptions();
      var rows := Collect();
      assert forall o :: o in Repr() ==> allocated(o);
      var ordered := OrderRows(rows, flag);
      assert rows == Rows();
      var numbered := Number(ordered);
      assert rows == Rows();
      report := Report(beginTime, numbered);
      assert RowsIn(report.entries) == ordered;
    }

    /** One `if (flag & bit)` block of OutPut: a report for `d` when the bit is set. */
    method RenderIf(options: OptionManager, d: Destination, bit: Flags) returns (outs: seq<(Destination, Report)>)
      ensures RenderedTo(outs, d, bit, beginTime, Rows(), options.flag)
    {
      var flag := options.GetOptions();
      outs := [];
      if Has(flag, bit) {
        var report := BuildReport(options);
        outs := [(d, report)];
      }
    }

    /**
     * OutPut: renders the report once for each destination the options
     * select, the console before the file.
     */
    method OutPut(options: OptionManager) returns (outputs: seq<(Destination, Report)>)
      ensures IsOutputOf(outputs, beginTime, Rows(), options.flag)
    {
      ghost var rows := Rows();
      assert forall o :: o in Repr() ==> allocated(o);
      var viaConsole := RenderIf(options, Console, SAVE_TO_CONSOLE);
      assert rows == Rows();
      var viaFile := RenderIf(options, File, SAVE_TO_FILE);
      assert rows == Rows();
      OutputsConcat(viaConsole, viaFile, beginTime, rows, options.flag);
      outputs := viaConsole + viaFile;
    }
  }
}

/**
 * The coverage report: one record per property name found in the ledger,
 * carrying the name's hit count and its covered source lines.
 */
module CoverageReport {
  import opened CoverageLog

  /** One report record: `{goalID, hitCount, coveredLines}`. */
  datatype Entry = Entry(goalID: string, hitCount: int, coveredLines: seq<int>)

  /** Every key the ledger iterates has a property name and a line list. */
  predicate Iterable(st: LedgerState, order: seq<int>) {
    forall i :: 0 <= i < |order| ==> order[i] in st.nameMap && order[i] in st.lineMap
  }

  /**
   * The records built from the name -> count and name -> lines maps, visiting
   * the names in the given order.
   */
  function Entries(counts: map<string, int>, lines: map<string, seq<int>>, names: seq<string>): (r: seq<Entry>)
    requires forall i :: 0 <= i < |names| ==> names[i] in counts && names[i] in lines
    ensures |r| == |names|
  {
    if names == [] then []
    else
      var n := names[|names| - 1];
      Entries(counts, lines, names[..|names| - 1]) + [Entry(n, counts[n], lines[n])]
  }

  /** The report of a ledger: the records of its hit-count and line maps. */
  function Report(st: LedgerState, order: seq<int>, names: seq<string>): seq<Entry>
    requires Iterable(st, order)
    requires forall i :: 0 <= i < |names| ==> names[i] in HitCounts(st, order)
  {
    NamesHaveLines(st, order);
    Entries(HitCounts(st, order), LinesForBlock(st, order), names)
  }

  /** getHitCounts and getLinesForBlock have the same names as keys. */
  lemma NamesHaveLines(st: LedgerState, order: seq<int>)
    requires Iterable(st, order)
    ensures HitCounts(st, order).Keys == LinesForBlock(st, order).Keys
  {
    forall n ensures n in HitCounts(st, order) <==> n in LinesForBlock(st, order) {
      ReadBackAgrees(st, order, n);
    }
  }

  /** The i-th record is built from the i-th name and that name's entries in both maps. */
  lemma {:induction false} EntriesAt(counts: map<string, int>, lines: map<string, seq<int>>,
                                     names: seq<string>, i: int)
    requires forall j :: 0 <= j < |names| ==> names[j] in counts && names[j] in lines
    requires 0 <= i < |names|
    ensures Entries(counts, lines, names)[i] == Entry(names[i], counts[names[i]], lines[names[i]])
  {
    if i < |names| - 1 {
      var init := names[..|names| - 1];
      EntriesAt(counts, lines, init, i);
    }
  }

  /** One more name adds its record at the end. */
  lemma EntriesStep(counts: map<string, int>, lines: map<string, seq<int>>, names: seq<string>, i: int)
    requires forall j :: 0 <= j < |names| ==> names[j] in counts && names[j] in lines
    requires 0 <= i < |names|
    ensures Entries(counts, lines, names[..i + 1])
         == Entries(counts, lines, names[..i]) + [Entry(names[i], counts[names[i]], lines[names[i]])]
  {
    assert names[..i + 1][..i] == names[..i];
  }

  /**
   * Every record of the report comes from one UID: the last UID in iteration
   * order carrying the record's name. Its hit count is that UID's count, 0 when
   * the block was never hit, and its lines are that UID's stored lines in
   * stored order.
   */
  lemma ReportEntryFromUID(st: LedgerState, order: seq<int>, names: seq<string>, i: int)
    requires Iterable(st, order)
    requires Enumerates(names, HitCounts(st, order).Keys)
    requires 0 <= i < |names|
    ensures var e := Report(st, order, names)[i];
            var last := LastWithName(st, order, e.goalID);
            && e.goalID == names[i]
            && 0 <= last < |order|
            && st.nameMap[order[last]] == e.goalID
            && e.hitCount == GetOrZero(st.countMap, order[last])
            && (order[last] !in st.countMap ==> e.hitCount == 0)
            && e.coveredLines == st.lineMap[order[last]]
  {
    NamesHaveLines(st, order);
    EntriesAt(HitCounts(st, order), LinesForBlock(st, order), names, i);
    ReadBackAgrees(st, order, names[i]);
  }

  /** The report names each property at most once: no two records share a goalID. */
  lemma GoalIDsDistinct(st: LedgerState, order: seq<int>, names: seq<string>)
    requires Iterable(st, order)
    requires Enumerates(names, HitCounts(st, order).Keys)
    ensures var r := Report(st, order, names);
            forall i, j :: 0 <= i < j < |r| ==> r[i].goalID != r[j].goalID
  {
    GoalIDsAreNames(st, order, names);
  }

  /** The report names each property at least once: every name of an iterated UID has a record. */
  lemma EveryNameReported(st: LedgerState, order: seq<int>, names: seq<string>)
    requires Iterable(st, order)
    requires Enumerates(names, HitCounts(st, order).Keys)
    ensures var r := Report(st, order, names);
            forall k :: 0 <= k < |order| ==> exists i :: 0 <= i < |r| && r[i].goalID == st.nameMap[order[k]]
  {
    forall k | 0 <= k < |order|
      ensures exists i :: 0 <= i < |names| && Report(st, order, names)[i].goalID == st.nameMap[order[k]]
    {
      NameHasEntry(st, order, names, k);
    }
  }

  /**
   * The records' goalIDs are the names, in order, and each is the name of an
   * iterated UID: the report invents no property.
   */
  lemma GoalIDsAreNames(st: LedgerState, order: seq<int>, names: seq<string>)
    requires Iterable(st, order)
    requires Enumerates(names, HitCounts(st, order).Keys)
    ensures forall i :: 0 <= i < |names| ==> Report(st, order, names)[i].goalID == names[i]
    ensures forall i :: 0 <= i < |names| ==>
              exists k :: 0 <= k < |order| && st.nameMap[order[k]] == Report(st, order, names)[i].goalID
  {
    var r := Report(st, order, names);
    forall i | 0 <= i < |r|
      ensures r[i].goalID == names[i]
      ensures exists k :: 0 <= k < |order| && st.nameMap[order[k]] == r[i].goalID
    {
      ReportEntryFromUID(st, order, names, i);
      var last := LastWithName(st, order, r[i].goalID);
      assert 0 <= last < |order| && st.nameMap[order[last]] == r[i].goalID;
    }
  }

  /** The name of the k-th iterated UID has a record. */
  lemma NameHasEntry(st: LedgerState, order: seq<int>, names: seq<string>, k: int)
    requires Iterable(st, order)
    requires Enumerates(names, HitCounts(st, order).Keys)
    requires 0 <= k < |order|
    ensures exists i :: 0 <= i < |names| && Report(st, order, names)[i].goalID == st.nameMap[order[k]]
  {
    NamesAreReported(st, order, k);
    var i := IndexOf(names, st.nameMap[order[k]]);
    ReportEntryFromUID(st, order, names, i);
  }

  /** The position of a name in a sequence that holds it. */
  function IndexOf(names: seq<string>, n: string): (i: int)
    requires n in names
    ensures 0 <= i < |names| && names[i] == n
  {
    if names[0] == n then 0 else 1 + IndexOf(names[1..], n)
  }

  /** The inner loop of getReport: one line-number object per stored line, in stored order. */
  method CopyLines(stored: seq<int>) returns (lineNumbers: seq<int>)
    ensures lineNumbers == stored
  {
    lineNumbers := [];
    var j := 0;
    while j < |stored|
      invariant 0 <= j <= |stored|
      invariant lineNumbers == stored[..j]
    {
      lineNumbers := lineNumbers + [stored[j]];
      j := j + 1;
    }
    assert stored[..j] == stored;
  }

  /**
   * getReport: turns off the shutdown report, reads the two maps, then builds
   * one record per name of the hit-count map, copying that name's lines one by
   * one. `order` is the location table's iteration order and `names` the
   * hit-count map's.
   */
  method GetReport(logger: CoverageLog, order: seq<int>, names: seq<string>) returns (report: seq<Entry>)
    requires Readable(logger.State()) && Enumerates(order, logger.locMap.Keys)
    requires Enumerates(names, HitCounts(logger.State(), order).Keys)
    modifies logger`shouldReport
    ensures !logger.shouldReport
    ensures Iterable(logger.State(), order)
    ensures report == Report(logger.State(), order, names)
  {
    logger.SetReport(false);
    var descCountMap := logger.GetHitCounts(order);
    var descLineMap := logger.GetLinesForBlock(order);
    NamesHaveLines(logger.State(), order);
    report := [];
    var i := 0;
    while i < |names|
      invariant 0 <= i <= |names|
      invariant report == Entries(descCountMap, descLineMap, names[..i])
      modifies {}
    {
      var description := names[i];
      var hits := descCountMap[description];
      var stored := descLineMap[description];
      var lineNumbers := CopyLines(stored);
      EntriesStep(descCountMap, descLineMap, names, i);
      report := report + [Entry(description, hits, lineNumbers)];
      i := i + 1;
    }
    assert names[..i] == names;
  }
}

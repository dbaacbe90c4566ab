/**
 * The results page: it selects the first evaluated file, starts its
 * download, and turns the file's statistics into the category, relevance
 * and keyword charts.
 */
module ResultsPage {
  import opened Text
  import opened Wrappers
  import opened CsvUtils
  import opened Helpers
  import RelevancePage
  import Sorting
  import RelevanceService

  // ---------------------------------------------------------------------
  // The files and the automatic selection

  /** `fileList.filter(file => file.has_evaluation || file.is_evaluated)`. */
  function EvaluatedFiles(fileList: seq<FileInfo>): (r: seq<FileInfo>)
    ensures |r| <= |fileList|
    ensures forall f :: f in r <==> f in fileList && RelevancePage.IsEvaluated(f)
  {
    if fileList == [] then []
    else
      var init, last := fileList[..|fileList| - 1], fileList[|fileList| - 1];
      assert fileList == init + [last];
      EvaluatedFiles(init) + (if last.hasEvaluation || last.isEvaluated then [last] else [])
  }

  /**
   * The results page shows exactly the files the relevance page leaves out:
   * each listed file is in one of the two lists and not in the other, and
   * the two lists together are as long as the listing.
   */
  lemma {:induction false} FilesPartition(fileList: seq<FileInfo>)
    ensures |EvaluatedFiles(fileList)| + |RelevancePage.UnevaluatedFiles(fileList)| == |fileList|
    ensures forall f :: f in fileList ==> (f in EvaluatedFiles(fileList) <==> f !in RelevancePage.UnevaluatedFiles(fileList))
  {
    if fileList != [] {
      FilesPartition(fileList[..|fileList| - 1]);
    }
  }

  /**
   * The file `loadFiles` selects: the first listed file that has been
   * evaluated, if there is one.
   */
  function AutoSelect(fileList: seq<FileInfo>): (r: Option<FileInfo>)
    ensures r.None? <==> forall i :: 0 <= i < |fileList| ==> !RelevancePage.IsEvaluated(fileList[i])
  {
    var evaluatedFiles := EvaluatedFiles(fileList);
    if |evaluatedFiles| > 0 then
      assert evaluatedFiles[0] in evaluatedFiles;
      Some(evaluatedFiles[0])
    else
      assert forall i :: 0 <= i < |fileList| ==> fileList[i] in fileList;
      None
  }

  /** Where the first evaluated file sits in the listing. */
  lemma {:induction false} EvaluatedFirst(fileList: seq<FileInfo>) returns (i: nat)
    requires EvaluatedFiles(fileList) != []
    ensures i < |fileList| && fileList[i] == EvaluatedFiles(fileList)[0]
    ensures forall j :: 0 <= j < i ==> !RelevancePage.IsEvaluated(fileList[j])
  {
    var init, last := fileList[..|fileList| - 1], fileList[|fileList| - 1];
    var e := EvaluatedFiles(init);
    if e != [] {
      i := EvaluatedFirst(init);
      assert EvaluatedFiles(fileList)[0] == e[0];
      assert fileList[i] == init[i];
      forall j | 0 <= j < i ensures !RelevancePage.IsEvaluated(fileList[j]) {
        assert fileList[j] == init[j];
      }
    } else {
      i := |init|;
      forall j | 0 <= j < i ensures !RelevancePage.IsEvaluated(fileList[j]) {
        assert fileList[j] == init[j] && init[j] in init && init[j] !in e;
      }
    }
  }

  /** The selected file is evaluated and every file listed before it is not. */
  lemma AutoSelectFirst(fileList: seq<FileInfo>)
    ensures AutoSelect(fileList).Some? ==>
              exists i :: 0 <= i < |fileList| && fileList[i] == AutoSelect(fileList).value && RelevancePage.IsEvaluated(fileList[i]) &&
                          forall j :: 0 <= j < i ==> !RelevancePage.IsEvaluated(fileList[j])
  {
    if EvaluatedFiles(fileList) != [] {
      var i := EvaluatedFirst(fileList);
      assert EvaluatedFiles(fileList)[0] in EvaluatedFiles(fileList);
    }
  }

  // ---------------------------------------------------------------------
  // The key order of a JavaScript object

  /**
   * A property name that is an array index: the canonical decimal text of
   * a number below 2^32 - 1. `Object.keys` lists these first.
   */
  predicate IsArrayIndex(k: string)
  {
    k != "" && AllDigits(k) && (|k| == 1 || k[0] != '0') && ParseNat(k) < 0xFFFF_FFFF
  }

  /** The entries with an array-index key, in insertion order. */
  function IndexEntries(t: Tally): (r: Tally)
    ensures |r| <= |t|
    ensures forall e :: e in r <==> e in t && IsArrayIndex(e.0)
  {
    if t == [] then []
    else
      var init, last := t[..|t| - 1], t[|t| - 1];
      assert t == init + [last];
      IndexEntries(init) + (if IsArrayIndex(last.0) then [last] else [])
  }

  /** The other entries, in insertion order. */
  function OtherEntries(t: Tally): (r: Tally)
    ensures |r| <= |t|
    ensures forall e :: e in r <==> e in t && !IsArrayIndex(e.0)
  {
    if t == [] then []
    else
      var init, last := t[..|t| - 1], t[|t| - 1];
      assert t == init + [last];
      OtherEntries(init) + (if !IsArrayIndex(last.0) then [last] else [])
  }

  /** Sorting by this key in descending order puts array indices in ascending order. */
  function IndexOrder(e: (string, int)): int
  {
    0 - ParseNat(e.0) as int
  }

  /**
   * `Object.entries` of a dictionary that was filled in `t`'s order: the
   * array-index keys in ascending numeric order, then the other keys in
   * insertion order.
   */
  function ObjectEntries(t: Tally): (r: Tally)
    ensures |r| == |t|
    ensures multiset(r) == multiset(t)
  {
    EntriesMultiset(t);
    assert |multiset(IndexEntries(t))| + |multiset(OtherEntries(t))| == |multiset(t)|;
    Sorting.SortDesc(IndexEntries(t), IndexOrder) + OtherEntries(t)
  }

  /** Every array-index key comes before every other key, and array indices ascend. */
  lemma ObjectEntriesOrder(t: Tally)
    ensures var r := ObjectEntries(t);
            && (forall i, j :: 0 <= i < j < |r| && !IsArrayIndex(r[i].0) ==> !IsArrayIndex(r[j].0))
            && (forall i, j :: 0 <= i < j < |r| && IsArrayIndex(r[j].0) ==> ParseNat(r[i].0) <= ParseNat(r[j].0))
  {
    var indices := IndexEntries(t);
    var sorted := Sorting.SortDesc(indices, IndexOrder);
    var others := OtherEntries(t);
    Sorting.SortDescSorted(indices, IndexOrder);
    forall e | e in sorted ensures IsArrayIndex(e.0) {
      assert e in multiset(indices);
    }
    var r := sorted + others;
    assert r == ObjectEntries(t);
    forall i | 0 <= i < |r| ensures (i < |sorted| ==> r[i] == sorted[i] && IsArrayIndex(r[i].0)) && (i >= |sorted| ==> !IsArrayIndex(r[i].0)) {
      if i < |sorted| {
        assert r[i] in sorted;
      } else {
        assert r[i] == others[i - |sorted|] && r[i] in others;
      }
    }
    forall i, j | 0 <= i < j < |r| && IsArrayIndex(r[j].0) ensures ParseNat(r[i].0) <= ParseNat(r[j].0) {
      assert IndexOrder(sorted[i]) >= IndexOrder(sorted[j]);
    }
  }

  /** A non-empty sequence is its prefix followed by its last element. */
  lemma SplitLast<T>(s: seq<T>)
    requires s != []
    ensures s == s[..|s| - 1] + [s[|s| - 1]]
  {
  }

  /** Splitting a dictionary's entries into the two groups loses no entry. */
  lemma {:induction false} EntriesMultiset(t: Tally)
    ensures multiset(IndexEntries(t)) + multiset(OtherEntries(t)) == multiset(t)
  {
    if t != [] {
      var init, last := t[..|t| - 1], t[|t| - 1];
      EntriesMultiset(init);
      SplitLast(t);
    }
  }

  lemma TotalOne(e: (string, int))
    ensures Total([e]) == e.1
  {
    assert [e][1..] == [];
  }

  lemma TotalSnoc(t: Tally)
    requires t != []
    ensures Total(t) == Total(t[..|t| - 1]) + t[|t| - 1].1
  {
    SplitLast(t);
    TotalAppend(t[..|t| - 1], [t[|t| - 1]]);
    TotalOne(t[|t| - 1]);
  }

  /** Splitting a dictionary's entries into the two groups keeps the sum of the counts. */
  lemma {:induction false} EntriesTotal(t: Tally)
    ensures Total(IndexEntries(t)) + Total(OtherEntries(t)) == Total(t)
  {
    if t != [] {
      var init, last := t[..|t| - 1], t[|t| - 1];
      EntriesTotal(init);
      TotalSnoc(t);
      TotalOne(last);
      if IsArrayIndex(last.0) {
        assert IndexEntries(t) == IndexEntries(init) + [last];
        assert OtherEntries(t) == OtherEntries(init);
        TotalAppend(IndexEntries(init), [last]);
      } else {
        assert IndexEntries(t) == IndexEntries(init);
        assert OtherEntries(t) == OtherEntries(init) + [last];
        TotalAppend(OtherEntries(init), [last]);
      }
    }
  }

  lemma {:induction false} TotalAppend(a: Tally, b: Tally)
    ensures Total(a + b) == Total(a) + Total(b)
  {
    if a != [] {
      var ab := a + b;
      assert ab[0] == a[0] && ab[1..] == a[1..] + b;
      TotalAppend(a[1..], b);
      assert Total(ab) == ab[0].1 + Total(ab[1..]);
    } else {
      assert a + b == b;
    }
  }

  lemma {:induction false} TotalInsert(s: Tally, x: (string, int), key: ((string, int)) -> int)
    ensures Total(Sorting.InsertDesc(s, x, key)) == Total(s) + x.1
  {
    if s != [] && key(s[0]) >= key(x) {
      TotalInsert(s[1..], x, key);
      assert ([s[0]] + Sorting.InsertDesc(s[1..], x, key))[1..] == Sorting.InsertDesc(s[1..], x, key);
    } else {
      assert ([x] + s)[1..] == s;
    }
  }

  /** Sorting keeps the sum of the counts. */
  lemma {:induction false} TotalSort(s: Tally, key: ((string, int)) -> int)
    ensures Total(Sorting.SortDesc(s, key)) == Total(s)
  {
    if s != [] {
      var init, last := s[..|s| - 1], s[|s| - 1];
      TotalSort(init, key);
      TotalInsert(Sorting.SortDesc(init, key), last, key);
      TotalAppend(init, [last]);
      assert s == init + [last];
    }
  }

  /** Listing the entries in JavaScript's order keeps the sum of the counts. */
  lemma ObjectEntriesTotal(t: Tally)
    ensures Total(ObjectEntries(t)) == Total(t)
  {
    var indices := IndexEntries(t);
    EntriesTotal(t);
    TotalSort(indices, IndexOrder);
    TotalAppend(Sorting.SortDesc(indices, IndexOrder), OtherEntries(t));
  }

  lemma {:induction false} OtherEntriesAll(t: Tally)
    requires forall i :: 0 <= i < |t| ==> !IsArrayIndex(t[i].0)
    ensures OtherEntries(t) == t
  {
    if t != [] {
      var init := t[..|t| - 1];
      forall i | 0 <= i < |init| ensures !IsArrayIndex(init[i].0) {
        assert init[i] == t[i];
      }
      OtherEntriesAll(init);
      SplitLast(t);
    }
  }

  /** Without array-index keys, JavaScript lists the entries in insertion order. */
  lemma ObjectEntriesInOrder(t: Tally)
    requires forall i :: 0 <= i < |t| ==> !IsArrayIndex(t[i].0)
    ensures ObjectEntries(t) == t
  {
    OtherEntriesAll(t);
  }

  /** None of the four categories the evaluation assigns is an array index. */
  lemma CategoriesAreNotIndices(k: string)
    requires RelevanceService.IsCategory(k)
    ensures !IsArrayIndex(k)
  {
    assert !('0' <= k[0] <= '9');
  }

  // ---------------------------------------------------------------------
  // The charts

  /** Labels, slice or bar values, and colours of a chart. */
  datatype Chart = Chart(labels: seq<string>, data: seq<int>, colors: seq<string>)

  function Sum(data: seq<int>): int
  {
    if data == [] then 0 else data[0] + Sum(data[1..])
  }

  function LabelsOf(entries: Tally): (r: seq<string>)
    ensures |r| == |entries| && forall i :: 0 <= i < |entries| ==> r[i] == entries[i].0
  {
    seq(|entries|, i requires 0 <= i < |entries| => entries[i].0)
  }

  function DataOf(entries: Tally): (r: seq<int>)
    ensures |r| == |entries| && forall i :: 0 <= i < |entries| ==> r[i] == entries[i].1
  {
    seq(|entries|, i requires 0 <= i < |entries| => entries[i].1)
  }

  lemma {:induction false} SumOfData(entries: Tally)
    ensures Sum(DataOf(entries)) == Total(entries)
  {
    if entries != [] {
      SumOfData(entries[1..]);
      assert DataOf(entries)[1..] == DataOf(entries[1..]);
    }
  }

  /** `labels.map(getCategoryColor)`. */
  function ColorsOf(labels: seq<string>): (r: seq<string>)
    ensures |r| == |labels| && forall i :: 0 <= i < |labels| ==> r[i] == GetCategoryColor(labels[i])
  {
    seq(|labels|, i requires 0 <= i < |labels| => GetCategoryColor(labels[i]))
  }

  /**
   * `getCategoryChartData`: no chart without statistics or without category
   * counts; otherwise one slice per category, in the object's key order,
   * each coloured by `getCategoryColor`.
   */
  function CategoryChartData(fileStats: Option<Stats>): (r: Option<Chart>)
    ensures r.Some? <==> fileStats.Some? && fileStats.value.categoryCounts.Some?
    ensures r.Some? ==>
              var counts := fileStats.value.categoryCounts.value;
              var c := r.value;
              && |c.labels| == |c.data| == |c.colors| == |counts|
              && (forall i :: 0 <= i < |c.labels| ==> (c.labels[i], c.data[i]) in counts)
              && (forall i :: 0 <= i < |c.labels| ==> (c.labels[i], c.data[i]) == ObjectEntries(counts)[i])
              && (forall i :: 0 <= i < |c.labels| ==> c.colors[i] == GetCategoryColor(c.labels[i]))
  {
    if fileStats.None? || fileStats.value.categoryCounts.None? then None
    else
      var entries := ObjectEntries(fileStats.value.categoryCounts.value);
      SameElements(entries, fileStats.value.categoryCounts.value);
      Some(Chart(LabelsOf(entries), DataOf(entries), ColorsOf(LabelsOf(entries))))
  }

  /**
   * The category slices of a file's statistics add up to the number of
   * rows with a category.
   */
  lemma CategoryChartTotal(t: Table)
    requires StatsOf(t).StatsOk? && "category" in t.header
    ensures CategoryChartData(Some(StatsOf(t).stats)).Some?
    ensures Sum(CategoryChartData(Some(StatsOf(t).stats)).value.data) == NonEmptyCount(Column(t.rows, "category"))
  {
    var counts := StatsOf(t).stats.categoryCounts.value;
    ObjectEntriesTotal(counts);
    SumOfData(ObjectEntries(counts));
  }

  /** JavaScript numbers as far as the relevance chart needs them. */
  datatype JsNumber = Num(n: int) | NaN

  /**
   * `getRelevanceChartData` as written: it reads `total_count`, which the
   * statistics do not have, so the second slice is `undefined - n`.
   */
  function RelevanceChartAsWritten(fileStats: Option<Stats>): (r: Option<seq<JsNumber>>)
    ensures r.Some? <==> fileStats.Some? && fileStats.value.relevantCount.Some? && fileStats.value.relevantCount.value != 0
  {
    if fileStats.None? || fileStats.value.relevantCount.None? || fileStats.value.relevantCount.value == 0 then None
    else Some([Num(fileStats.value.relevantCount.value), NaN])
  }

  /** Whenever the chart is drawn, its "not relevant" slice is not a number. */
  lemma RelevanceChartAsWrittenHasNaN(fileStats: Option<Stats>)
    ensures RelevanceChartAsWritten(fileStats).Some? ==>
              |RelevanceChartAsWritten(fileStats).value| == 2 && RelevanceChartAsWritten(fileStats).value[1] == NaN
  {
  }

  /**
   * The relevance chart read from `total_rows`: no chart when the relevant
   * count is missing or zero; otherwise the relevant and the other rows.
   */
  function RelevanceChartData(fileStats: Option<Stats>): (r: Option<seq<int>>)
    ensures r.Some? <==> fileStats.Some? && fileStats.value.relevantCount.Some? && fileStats.value.relevantCount.value != 0
    ensures r.Some? ==> |r.value| == 2 && r.value[0] == fileStats.value.relevantCount.value
    ensures r.Some? ==> r.value[0] + r.value[1] == fileStats.value.totalRows
  {
    if fileStats.None? || fileStats.value.relevantCount.None? || fileStats.value.relevantCount.value == 0 then None
    else
      var relevant := fileStats.value.relevantCount.value;
      Some([relevant, fileStats.value.totalRows - relevant])
  }

  /**
   * For a file's statistics, the two slices are the relevant rows and the
   * other rows: neither is negative.
   */
  lemma RelevanceChartSlices(t: Table)
    requires StatsOf(t).StatsOk?
    ensures var r := RelevanceChartData(Some(StatsOf(t).stats));
            r.Some? ==> r.value == [RelevantCount(t.rows), |t.rows| - RelevantCount(t.rows)] && r.value[1] >= 0
  {
  }

  /** Most keyword bars shown. */
  const MaxKeywordBars: nat := 10

  function Count(e: (string, int)): int
  {
    e.1
  }

  /** `Object.entries(keyword_counts).sort((a, b) => b[1] - a[1]).slice(0, 10)`. */
  function TopKeywords(counts: Tally): (r: Tally)
    ensures |r| == if |counts| < MaxKeywordBars then |counts| else MaxKeywordBars
    ensures forall i :: 0 <= i < |r| ==> r[i] in counts
    ensures multiset(r) <= multiset(counts)
  {
    var sorted := Sorting.SortDesc(ObjectEntries(counts), Count);
    var n := if |sorted| < MaxKeywordBars then |sorted| else MaxKeywordBars;
    SameElements(sorted, counts);
    PrefixMultiset(sorted, n);
    sorted[..n]
  }

  lemma PrefixMultiset(s: Tally, n: nat)
    requires n <= |s|
    ensures multiset(s[..n]) <= multiset(s)
  {
    assert s == s[..n] + s[n..];
  }

  lemma SameElements(a: Tally, b: Tally)
    requires multiset(a) == multiset(b)
    ensures forall i :: 0 <= i < |a| ==> a[i] in b
  {
    forall i | 0 <= i < |a| ensures a[i] in b {
      assert a[i] in multiset(a);
    }
  }

  /** The bars are in order of decreasing article count. */
  lemma TopKeywordsSorted(counts: Tally)
    ensures Sorting.SortedDesc(TopKeywords(counts), Count)
  {
    Sorting.SortDescSorted(ObjectEntries(counts), Count);
  }

  /** In a list sorted by decreasing count, an entry missing from a prefix counts no more than any entry of it. */
  lemma PrefixHoldsTop(sorted: Tally, n: nat, e: (string, int))
    requires n <= |sorted| && Sorting.SortedDesc(sorted, Count)
    requires e in sorted && e !in sorted[..n]
    ensures forall i :: 0 <= i < n ==> sorted[i].1 >= e.1
  {
    var j :| 0 <= j < |sorted| && sorted[j] == e;
    forall i | 0 <= i < n ensures sorted[i].1 >= e.1 {
      assert Count(sorted[i]) >= Count(sorted[j]);
    }
  }

  /** A keyword left out of the chart has no more articles than any keyword shown. */
  lemma TopKeywordsAreTop(counts: Tally, e: (string, int))
    requires e in counts && e !in TopKeywords(counts)
    ensures forall i :: 0 <= i < |TopKeywords(counts)| ==> TopKeywords(counts)[i].1 >= e.1
  {
    var sorted := Sorting.SortDesc(ObjectEntries(counts), Count);
    Sorting.SortDescSorted(ObjectEntries(counts), Count);
    assert e in multiset(sorted);
    var top := TopKeywords(counts);
    PrefixHoldsTop(sorted, |top|, e);
  }

  /**
   * `getKeywordChartData`: no chart without statistics or without keyword
   * counts; otherwise the ten keywords with the most articles, most first.
   */
  function KeywordChartData(fileStats: Option<Stats>): (r: Option<Chart>)
    ensures r.Some? <==> fileStats.Some? && fileStats.value.keywordCounts.Some?
    ensures r.Some? ==>
              var counts := fileStats.value.keywordCounts.value;
              var c := r.value;
              && |c.labels| == |c.data| <= MaxKeywordBars
              && (|counts| >= MaxKeywordBars ==> |c.labels| == MaxKeywordBars)
              && |c.labels| == |TopKeywords(counts)|
              && (forall i :: 0 <= i < |c.labels| ==> (c.labels[i], c.data[i]) == TopKeywords(counts)[i])
              && (forall i :: 0 <= i < |c.labels| ==> (c.labels[i], c.data[i]) in counts)
              && (forall i, j :: 0 <= i < j < |c.data| ==> c.data[i] >= c.data[j])
  {
    if fileStats.None? || fileStats.value.keywordCounts.None? then None
    else
      var top := TopKeywords(fileStats.value.keywordCounts.value);
      TopKeywordsSorted(fileStats.value.keywordCounts.value);
      Some(Chart(LabelsOf(top), DataOf(top), []))
  }

  // ---------------------------------------------------------------------
  // The page

  const LoadFailedAlert: Alert := Alert(true, "error", "파일 목록을 불러오는 중 오류가 발생했습니다.")
  const FileInfoFailedAlert: Alert := Alert(true, "error", "파일 정보를 불러오는 중 오류가 발생했습니다.")

  function DownloadSnackbar(fileName: string): Alert
  {
    Alert(true, "success", fileName + " 파일 다운로드를 시작합니다.")
  }

  class ResultsPageState {
    var files: seq<FileInfo>
    var selectedFile: Option<FileInfo>
    var fileStats: Option<Stats>
    var alert: Alert
    var snackbar: Alert
    /** The names of the files whose download was started. */
    var downloads: seq<string>

    constructor()
      ensures files == [] && selectedFile.None? && fileStats.None? && !alert.open && !snackbar.open && downloads == []
    {
      files := [];
      selectedFile := None;
      fileStats := None;
      alert := Alert(false, "info", "");
      snackbar := Alert(false, "success", "");
      downloads := [];
    }

    /**
     * `handleSelectFile` with the statistics the backend answered (`None`
     * when the request failed).
     */
    method HandleSelectFile(file: FileInfo, stats: Option<Stats>)
      modifies this
      ensures selectedFile == Some(file)
      ensures stats.None? ==> alert == FileInfoFailedAlert && unchanged(this`fileStats)
      ensures stats.Some? ==> fileStats == stats && unchanged(this`alert)
      ensures unchanged(this`files, this`downloads, this`snackbar)
    {
      selectedFile := Some(file);
      if stats.None? {
        alert := FileInfoFailedAlert;
      } else {
        fileStats := stats;
      }
    }

    /**
     * `loadFiles` with the listing the backend answered (`None` when the
     * request failed) and the statistics of the file it then selects.
     */
    method LoadFiles(fileList: Option<seq<FileInfo>>, stats: Option<Stats>)
      modifies this
      ensures fileList.None? ==>
                alert == LoadFailedAlert && unchanged(this`files, this`selectedFile, this`fileStats)
      ensures fileList.Some? ==> files == fileList.value
      ensures fileList.Some? && AutoSelect(fileList.value).None? ==>
                unchanged(this`selectedFile, this`fileStats, this`alert)
      ensures fileList.Some? && AutoSelect(fileList.value).Some? ==>
                && selectedFile == AutoSelect(fileList.value)
                && (stats.Some? ==> fileStats == stats && alert == old(alert))
                && (stats.None? ==> alert == FileInfoFailedAlert && fileStats == old(fileStats))
      ensures unchanged(this`downloads, this`snackbar)
    {
      if fileList.None? {
        alert := LoadFailedAlert;
        return;
      }
      files := fileList.value;
      var evaluatedFiles := EvaluatedFiles(fileList.value);
      if |evaluatedFiles| > 0 {
        HandleSelectFile(evaluatedFiles[0], stats);
      }
    }

    /** `handleDownload`: nothing happens while no file is selected. */
    method HandleDownload()
      modifies this
      ensures old(selectedFile).None? ==> unchanged(this`downloads, this`snackbar)
      ensures old(selectedFile).Some? ==>
                downloads == old(downloads) + [old(selectedFile).value.fileName] &&
                snackbar == DownloadSnackbar(old(selectedFile).value.fileName)
      ensures unchanged(this`files, this`selectedFile, this`fileStats, this`alert)
    {
      if selectedFile.Some? {
        downloads := downloads + [selectedFile.value.fileName];
        snackbar := DownloadSnackbar(selectedFile.value.fileName);
      }
    }
  }
}

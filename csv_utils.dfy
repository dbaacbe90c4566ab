/**
 * The CSV helpers of the backend: saving result rows, previewing a file,
 * per-column statistics, the listing of result files and the size label.
 *
 * A CSV file is modelled as the `Table` that `csv.DictReader` yields for it
 * (header and data rows); the file system is the `Disk` object, a map from
 * paths to tables that saving updates.
 */
module CsvUtils {
  import opened Wrappers
  import opened Text
  import Paths
  import Sorting

  /** One CSV record: column name to cell text. */
  type Row = map<string, string>

  /**
   * The content of a CSV file, or a list of records about to be written:
   * `header` is the column order (for records in memory, the key order of
   * the first record, which is what `csv.DictWriter` gets as field names).
   */
  datatype Table = Table(header: seq<string>, rows: seq<Row>)

  /** The file system: every CSV file that exists, by path. */
  class Disk {
    var files: map<string, Table>

    constructor (files: map<string, Table>)
      ensures this.files == files
    {
      this.files := files;
    }
  }

  /** `row.get(column, '')`. */
  function Cell(row: Row, column: string): string
  {
    if column in row then row[column] else ""
  }

  // ---------------------------------------------------------------------
  // save_to_csv

  /**
   * What `save_to_csv` returns: a bare `False` for empty data, `(True, path
   * or None)` after a write, `(False, None)` when the write raised.
   */
  datatype SaveResult = EmptyData | Saved(copiedTo: Option<string>) | SaveFailed

  /** The record as written under `header` and read back: missing cells become empty. */
  function Normalize(header: seq<string>, row: Row): (r: Row)
    ensures r.Keys == set k | k in header
    ensures forall k :: k in header ==> r[k] == Cell(row, k)
  {
    map k | k in header :: Cell(row, k)
  }

  /** `csv.DictWriter` raises on a record holding a key that is not a field name. */
  predicate Writable(data: Table)
  {
    forall i :: 0 <= i < |data.rows| ==> data.rows[i].Keys <= set k | k in data.header
  }

  /** No column name appears twice. */
  predicate DistinctColumns(header: seq<string>)
  {
    forall i, j :: 0 <= i < j < |header| ==> header[i] != header[j]
  }

  /** The field names `list(data[0].keys())`: the header lists the first record's keys, each once. */
  predicate HeaderOfFirst(data: Table)
  {
    data.rows != [] ==> DistinctColumns(data.header) && data.rows[0].Keys == set k | k in data.header
  }

  /** What `csv.DictReader` yields for a file: distinct column names, every record keyed by exactly them. */
  predicate WellFormed(t: Table)
  {
    && DistinctColumns(t.header)
    && forall i :: 0 <= i < |t.rows| ==> t.rows[i].Keys == set k | k in t.header
  }

  /** The file content that writing `data` leaves behind. */
  function Written(data: Table): (t: Table)
    ensures t.header == data.header && |t.rows| == |data.rows|
    ensures DistinctColumns(data.header) ==> WellFormed(t)
  {
    Table(data.header, seq(|data.rows|, i requires 0 <= i < |data.rows| => Normalize(data.header, data.rows[i])))
  }

  /**
   * `save_to_csv`. `writeFails` and `copyFails` stand for an `OSError`
   * raised while creating or writing the file and while copying it to the
   * download folder.
   */
  method SaveToCsv(disk: Disk, data: Table, path: string, copyToDownload: bool,
                   downloadPath: Option<string>, writeFails: bool, copyFails: bool)
    returns (r: SaveResult)
    requires HeaderOfFirst(data)
    modifies disk
    ensures data.rows == [] ==> r == EmptyData && disk.files == old(disk.files)
    ensures data.rows != [] && (writeFails || !Writable(data)) ==>
              r == SaveFailed && disk.files == old(disk.files)
    ensures r.Saved? <==> data.rows != [] && !writeFails && Writable(data)
    ensures r.Saved? ==> path in disk.files && disk.files[path] == Written(data) && WellFormed(disk.files[path])
    ensures r.Saved? ==>
              if copyToDownload && downloadPath.Some? && downloadPath.value != "" && !copyFails then
                var copy := Paths.Join(downloadPath.value, Paths.Basename(path));
                r.copiedTo == Some(copy) &&
                disk.files == old(disk.files)[path := Written(data)][copy := Written(data)]
              else
                r.copiedTo == None && disk.files == old(disk.files)[path := Written(data)]
  {
    if data.rows == [] {
      return EmptyData;
    }
    if writeFails || !Writable(data) {
      return SaveFailed;
    }
    var content := Written(data);
    disk.files := disk.files[path := content];
    var copiedTo: Option<string> := None;
    if copyToDownload && downloadPath.Some? && downloadPath.value != "" && !copyFails {
      var copy := Paths.Join(downloadPath.value, Paths.Basename(path));
      disk.files := disk.files[copy := content];
      copiedTo := Some(copy);
    }
    return Saved(copiedTo);
  }

  // ---------------------------------------------------------------------
  // get_csv_preview

  datatype Preview = Preview(totalRows: nat, totalColumns: nat, columnNames: seq<string>, previewData: seq<Row>)

  datatype PreviewResult = PreviewOk(preview: Preview) | PreviewErr(message: string)

  /** How many rows a preview of at most `maxRows` rows takes from `n` rows. */
  function PreviewLength(n: nat, maxRows: int): (k: nat)
    ensures k <= n && k <= (if maxRows < 0 then 0 else maxRows)
    ensures k == n || k == (if maxRows < 0 then 0 else maxRows)
  {
    if maxRows <= 0 then 0 else if maxRows < n then maxRows else n
  }

  /**
   * `get_csv_preview`: the first `max_rows` data rows, in file order.
   * `readError` is the text `str(e)` of an exception raised while opening
   * or reading the file, which the handler returns as the error.
   */
  method GetCsvPreview(disk: Disk, path: string, maxRows: int, readError: Option<string>) returns (r: PreviewResult)
    ensures path !in disk.files ==> r == PreviewErr("File not found")
    ensures path in disk.files && readError.Some? ==> r == PreviewErr(readError.value)
    ensures path in disk.files && readError.None? ==>
              var t := disk.files[path];
              r.PreviewOk? &&
              r.preview.previewData == t.rows[..PreviewLength(|t.rows|, maxRows)] &&
              r.preview.columnNames == t.header &&
              r.preview.totalColumns == |r.preview.columnNames| &&
              r.preview.totalRows == |t.rows|
  {
    if path !in disk.files {
      return PreviewErr("File not found");
    }
    if readError.Some? {
      return PreviewErr(readError.value);
    }
    var t := disk.files[path];
    var previewData: seq<Row> := [];
    var i := 0;
    while i < |t.rows|
      invariant i <= |t.rows|
      invariant i <= (if maxRows < 0 then 0 else maxRows)
      invariant previewData == t.rows[..i]
    {
      if i >= maxRows {
        break;
      }
      previewData := previewData + [t.rows[i]];
      i := i + 1;
    }
    return PreviewOk(Preview(|t.rows|, |t.header|, t.header, previewData));
  }

  // ---------------------------------------------------------------------
  // Counting dictionaries

  /**
   * A `{value: count}` dictionary in insertion order (the order in which
   * the values first appeared).
   */
  type Tally = seq<(string, int)>

  function Keys(t: Tally): set<string>
  {
    if t == [] then {} else {t[0].0} + Keys(t[1..])
  }

  /** No value appears twice, as in a dictionary. */
  predicate DistinctKeys(t: Tally)
  {
    t == [] || (t[0].0 !in Keys(t[1..]) && DistinctKeys(t[1..]))
  }

  predicate AllPositive(t: Tally)
  {
    forall i :: 0 <= i < |t| ==> t[i].1 >= 1
  }

  /** The sum of all counts (`sum(d.values())`). */
  function Total(t: Tally): int
  {
    if t == [] then 0 else t[0].1 + Total(t[1..])
  }

  /** `d.get(k, 0)` for a dictionary with distinct keys. */
  function CountOf(t: Tally, k: string): int
  {
    if t == [] then 0 else (if t[0].0 == k then t[0].1 else 0) + CountOf(t[1..], k)
  }

  /** `d[k] = d.get(k, 0) + 1`. */
  function Bump(t: Tally, k: string): (r: Tally)
    ensures Keys(r) == Keys(t) + {k}
    ensures Total(r) == Total(t) + 1
    ensures forall j :: CountOf(r, j) == CountOf(t, j) + (if j == k then 1 else 0)
    ensures DistinctKeys(t) ==> DistinctKeys(r)
    ensures AllPositive(t) ==> AllPositive(r)
    ensures k in Keys(t) ==> |r| == |t| && forall i :: 0 <= i < |t| ==> r[i].0 == t[i].0
    ensures k !in Keys(t) ==> r == t + [(k, 1)]
  {
    if t == [] then [(k, 1)]
    else if t[0].0 == k then
      var r := [(k, t[0].1 + 1)] + t[1..];
      assert r[1..] == t[1..];
      r
    else
      var rest := Bump(t[1..], k);
      var r := [t[0]] + rest;
      assert r[1..] == rest;
      assert t == [t[0]] + t[1..];
      r
  }

  /** How many of `vals` equal `k`. */
  function Occurrences(vals: seq<string>, k: string): nat
  {
    if vals == [] then 0
    else Occurrences(vals[..|vals| - 1], k) + (if vals[|vals| - 1] == k then 1 else 0)
  }

  /** How many of `vals` are non-empty (truthy). */
  function NonEmptyCount(vals: seq<string>): (n: nat)
    ensures n <= |vals|
  {
    if vals == [] then 0
    else NonEmptyCount(vals[..|vals| - 1]) + (if vals[|vals| - 1] != "" then 1 else 0)
  }

  /** The set of non-empty values among `vals`. */
  function NonEmptyValues(vals: seq<string>): set<string>
  {
    if vals == [] then {}
    else NonEmptyValues(vals[..|vals| - 1]) + (if vals[|vals| - 1] != "" then {vals[|vals| - 1]} else {})
  }

  lemma {:induction false} NonEmptyValuesAt(vals: seq<string>, k: string)
    ensures k in NonEmptyValues(vals) <==> k != "" && exists i :: 0 <= i < |vals| && vals[i] == k
  {
    if vals != [] {
      var init := vals[..|vals| - 1];
      NonEmptyValuesAt(init, k);
      if exists i :: 0 <= i < |init| && init[i] == k {
        var i :| 0 <= i < |init| && init[i] == k;
        assert vals[i] == k;
      }
      if exists i :: 0 <= i < |vals| && vals[i] == k {
        var i :| 0 <= i < |vals| && vals[i] == k;
        if i < |init| { assert init[i] == k; }
      }
    }
  }

  /**
   * The dictionary the counting loop builds: for each value in turn, skip
   * it when empty, otherwise bump its count.
   */
  function TallyOf(vals: seq<string>): (t: Tally)
    ensures DistinctKeys(t) && AllPositive(t)
    ensures Keys(t) == NonEmptyValues(vals)
    ensures Total(t) == NonEmptyCount(vals)
    ensures forall k :: k != "" ==> CountOf(t, k) == Occurrences(vals, k)
  {
    if vals == [] then []
    else
      var t0 := TallyOf(vals[..|vals| - 1]);
      var v := vals[|vals| - 1];
      if v == "" then t0 else Bump(t0, v)
  }

  /** `[row.get(column, '') for row in rows]`. */
  function Column(rows: seq<Row>, column: string): (vals: seq<string>)
    ensures |vals| == |rows|
    ensures forall i :: 0 <= i < |rows| ==> vals[i] == Cell(rows[i], column)
  {
    seq(|rows|, i requires 0 <= i < |rows| => Cell(rows[i], column))
  }

  /** `str(value).lower() in ['true', '1', 'yes']`. */
  predicate IsTrueFlag(value: string)
  {
    var v := Lower(value);
    v == "true" || v == "1" || v == "yes"
  }

  /** `sum(1 for row in rows if <is_relevant flag is true>)`. */
  function RelevantCount(rows: seq<Row>): (n: nat)
    ensures n <= |rows|
  {
    if rows == [] then 0
    else RelevantCount(rows[..|rows| - 1]) + (if IsTrueFlag(Cell(rows[|rows| - 1], "is_relevant")) then 1 else 0)
  }

  // ---------------------------------------------------------------------
  // get_csv_statistics

  datatype Stats = Stats(
    totalRows: nat,
    totalColumns: nat,
    columnNames: seq<string>,
    keywordCounts: Option<Tally>,
    relevantCount: Option<nat>,
    categoryCounts: Option<Tally>)

  datatype StatsResult = StatsOk(stats: Stats) | StatsErr(message: string)

  /** What `get_csv_statistics` computes for a file that exists. */
  function StatsOf(t: Table): (r: StatsResult)
    ensures t.rows == [] <==> r == StatsErr("Empty file")
    ensures r.StatsOk? ==>
              var s := r.stats;
              && s.totalRows == |t.rows| && s.columnNames == t.header && s.totalColumns == |s.columnNames|
              && (s.keywordCounts.Some? <==> "keyword" in t.header)
              && (s.relevantCount.Some? <==> "is_relevant" in t.header)
              && (s.categoryCounts.Some? <==> "category" in t.header)
              && (s.relevantCount.Some? ==> s.relevantCount.value <= s.totalRows)
  {
    if t.rows == [] then StatsErr("Empty file")
    else StatsOk(Stats(
      |t.rows|,
      |t.header|,
      t.header,
      if "keyword" in t.header then Some(TallyOf(Column(t.rows, "keyword"))) else None,
      if "is_relevant" in t.header then Some(RelevantCount(t.rows)) else None,
      if "category" in t.header then Some(TallyOf(Column(t.rows, "category"))) else None))
  }

  /**
   * A column's counts: one entry per distinct non-empty value, each count at
   * least one and equal to the number of rows holding that value, summing
   * to the number of rows whose cell is non-empty.
   */
  lemma ColumnCounts(rows: seq<Row>, column: string)
    ensures var t := TallyOf(Column(rows, column));
            && DistinctKeys(t) && AllPositive(t)
            && Total(t) == NonEmptyCount(Column(rows, column))
            && (forall k :: k in Keys(t) <==> k != "" && exists i :: 0 <= i < |rows| && Cell(rows[i], column) == k)
            && (forall k :: k != "" ==> CountOf(t, k) == Occurrences(Column(rows, column), k))
  {
    var vals := Column(rows, column);
    forall k ensures k in Keys(TallyOf(vals)) <==> k != "" && exists i :: 0 <= i < |rows| && Cell(rows[i], column) == k {
      NonEmptyValuesAt(vals, k);
    }
  }

  /** The counting loop of `get_csv_statistics` for one column. */
  method CountColumn(data: seq<Row>, column: string) returns (counts: Tally)
    ensures counts == TallyOf(Column(data, column))
  {
    counts := [];
    var i := 0;
    while i < |data|
      invariant i <= |data|
      invariant counts == TallyOf(Column(data[..i], column))
    {
      var value := Cell(data[i], column);
      assert Column(data[..i + 1], column)[..i] == Column(data[..i], column);
      if value != "" {
        counts := Bump(counts, value);
      }
      i := i + 1;
    }
    assert data[..i] == data;
  }

  /** What `get_csv_statistics(path)` answers for the files `files`. */
  function StatsAt(files: map<string, Table>, path: string): StatsResult
  {
    if path in files then StatsOf(files[path]) else StatsErr("File not found")
  }

  method GetCsvStatistics(disk: Disk, path: string) returns (r: StatsResult)
    ensures path !in disk.files ==> r == StatsErr("File not found")
    ensures path in disk.files ==> r == StatsOf(disk.files[path])
  {
    if path !in disk.files {
      return StatsErr("File not found");
    }
    var data := disk.files[path].rows;
    var columnNames := disk.files[path].header;
    if data == [] {
      return StatsErr("Empty file");
    }
    var keywordCounts: Option<Tally> := None;
    if "keyword" in columnNames {
      var counts := CountColumn(data, "keyword");
      keywordCounts := Some(counts);
    }
    var relevantCount: Option<nat> := None;
    if "is_relevant" in columnNames {
      relevantCount := Some(RelevantCount(data));
    }
    var categoryCounts: Option<Tally> := None;
    if "category" in columnNames {
      var counts := CountColumn(data, "category");
      categoryCounts := Some(counts);
    }
    return StatsOk(Stats(|data|, |columnNames|, columnNames, keywordCounts, relevantCount, categoryCounts));
  }

  // ---------------------------------------------------------------------
  // format_size

  /**
   * The label `format_size` produces: the exact byte count below 1024, and
   * otherwise the size scaled to KB, MB or GB (before rounding to one
   * decimal place).
   */
  datatype SizeText = Bytes(count: int) | KB(value: real) | MB(value: real) | GB(value: real)

  const KiB: int := 1024
  const MiB: int := 1024 * 1024
  const GiB: int := 1024 * 1024 * 1024

  function FormatSize(sizeBytes: int): (r: SizeText)
    ensures r.Bytes? <==> sizeBytes < KiB
    ensures r.KB? <==> KiB <= sizeBytes < MiB
    ensures r.MB? <==> MiB <= sizeBytes < GiB
    ensures r.GB? <==> GiB <= sizeBytes
    ensures r.Bytes? ==> r.count == sizeBytes
    ensures r.KB? ==> 1.0 <= r.value < 1024.0 && r.value * KiB as real == sizeBytes as real
    ensures r.MB? ==> 1.0 <= r.value < 1024.0 && r.value * MiB as real == sizeBytes as real
    ensures r.GB? ==> 1.0 <= r.value && r.value * GiB as real == sizeBytes as real
  {
    if sizeBytes < KiB then Bytes(sizeBytes)
    else if sizeBytes < MiB then KB(sizeBytes as real / KiB as real)
    else if sizeBytes < GiB then MB(sizeBytes as real / MiB as real)
    else GB(sizeBytes as real / GiB as real)
  }

  // ---------------------------------------------------------------------
  // get_csv_files

  /**
   * One `os.listdir` entry with what `os.stat` and the header read give for
   * it; `header` is `None` when reading the first line failed, `statFails`
   * says that `os.stat` or the conversion of its modification time raised.
   */
  datatype DirEntry = DirEntry(name: string, size: int, modifiedTime: int, header: Option<seq<string>>, statFails: bool)

  datatype FileInfo = FileInfo(
    fileName: string,
    filePath: string,
    fileSize: int,
    fileSizeText: SizeText,
    modifiedTime: int,
    hasEvaluation: bool,
    isEvaluated: bool)

  function ModifiedTime(f: FileInfo): int
  {
    f.modifiedTime
  }

  /**
   * The record of one `.csv` entry: a path whose base name is the entry's
   * name, the size with its label, and the two evaluation flags.
   */
  function InfoOf(directory: string, e: DirEntry): (r: FileInfo)
    ensures r.fileName == e.name && ('/' !in e.name ==> Paths.Basename(r.filePath) == e.name)
    ensures r.fileSize == e.size && r.fileSizeText == FormatSize(e.size) && r.modifiedTime == e.modifiedTime
    ensures r.hasEvaluation <==> e.header.Some? && "is_relevant" in e.header.value
    ensures r.isEvaluated <==> Contains(e.name, "_evaluated")
  {
    Paths.JoinBasename(directory, e.name);
    FileInfo(
      e.name,
      Paths.Join(directory, e.name),
      e.size,
      FormatSize(e.size),
      e.modifiedTime,
      e.header.Some? && "is_relevant" in e.header.value,
      Contains(e.name, "_evaluated"))
  }

  /** The file records of the `.csv` entries, in listing order. */
  function CsvInfos(directory: string, entries: seq<DirEntry>): (r: seq<FileInfo>)
    ensures |r| <= |entries|
  {
    if entries == [] then []
    else
      var init, e := entries[..|entries| - 1], entries[|entries| - 1];
      CsvInfos(directory, init) + (if EndsWith(e.name, ".csv") then [InfoOf(directory, e)] else [])
  }

  /**
   * Exactly the `.csv` entries are listed; the flags say whether the name
   * holds `_evaluated` and whether the header has an `is_relevant` column.
   */
  lemma {:induction false} CsvInfosFlags(directory: string, entries: seq<DirEntry>)
    ensures forall f :: f in CsvInfos(directory, entries) ==>
              && EndsWith(f.fileName, ".csv")
              && (f.isEvaluated <==> Contains(f.fileName, "_evaluated"))
              && exists e :: e in entries && f == InfoOf(directory, e)
    ensures forall e :: e in entries && EndsWith(e.name, ".csv") ==> InfoOf(directory, e) in CsvInfos(directory, entries)
  {
    if entries != [] {
      var init := entries[..|entries| - 1];
      CsvInfosFlags(directory, init);
      forall e | e in init ensures e in entries {
        var i :| 0 <= i < |init| && init[i] == e;
        assert entries[i] == e;
      }
      forall e | e in entries ensures e in init || e == entries[|entries| - 1] {
        var i :| 0 <= i < |entries| && entries[i] == e;
        if i < |init| { assert init[i] == e; }
      }
    }
  }

  /** Some `.csv` entry of the listing cannot be inspected. */
  predicate StatFails(entries: seq<DirEntry>)
  {
    exists i :: 0 <= i < |entries| && EndsWith(entries[i].name, ".csv") && entries[i].statFails
  }

  /**
   * The loop of `get_csv_files`: the record of every `.csv` entry in
   * listing order, or `None` once an entry cannot be inspected.
   */
  method CollectCsvInfos(directory: string, entries: seq<DirEntry>) returns (r: Option<seq<FileInfo>>)
    ensures r.None? <==> StatFails(entries)
    ensures r.Some? ==> r.value == CsvInfos(directory, entries)
  {
    var fileInfoList: seq<FileInfo> := [];
    var i := 0;
    while i < |entries|
      invariant i <= |entries|
      invariant fileInfoList == CsvInfos(directory, entries[..i])
      invariant forall k :: 0 <= k < i && EndsWith(entries[k].name, ".csv") ==> !entries[k].statFails
    {
      assert entries[..i + 1][..i] == entries[..i];
      if EndsWith(entries[i].name, ".csv") {
        if entries[i].statFails {
          return None;
        }
        fileInfoList := fileInfoList + [InfoOf(directory, entries[i])];
      }
      i := i + 1;
    }
    assert entries[..i] == entries;
    return Some(fileInfoList);
  }

  /**
   * `get_csv_files`: `listing` is `None` when the directory does not exist
   * or `os.listdir` raised. A failure to inspect any `.csv` entry ends in
   * the handler that answers an empty list; otherwise the records are
   * sorted newest first, by a stable sort.
   */
  method GetCsvFiles(directory: string, listing: Option<seq<DirEntry>>) returns (r: seq<FileInfo>)
    ensures listing.None? ==> r == []
    ensures listing.Some? && StatFails(listing.value) ==> r == []
    ensures listing.Some? && !StatFails(listing.value) ==>
              && multiset(r) == multiset(CsvInfos(directory, listing.value))
              && r == Sorting.SortDesc(CsvInfos(directory, listing.value), ModifiedTime)
    ensures Sorting.SortedDesc(r, ModifiedTime)
    ensures forall f :: f in r ==> EndsWith(f.fileName, ".csv") && (f.isEvaluated <==> Contains(f.fileName, "_evaluated"))
  {
    if listing.None? {
      return [];
    }
    var fileInfoList := CollectCsvInfos(directory, listing.value);
    if fileInfoList.None? {
      return [];
    }
    CsvInfosFlags(directory, listing.value);
    r := Sorting.SortDesc(fileInfoList.value, ModifiedTime);
    Sorting.SortDescSorted(fileInfoList.value, ModifiedTime);
    forall f | f in r ensures f in fileInfoList.value {
      assert f in multiset(r);
    }
  }
}

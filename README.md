# News crawler and relevance evaluator — a Dafny model

The system crawls Naver news search results for a list of keywords and
saves the articles as CSV files. It asks a language model whether each
article is relevant, and into which of four categories it falls, and
writes an `_evaluated` copy of the file. It also lists, previews and
summarises the result files for a React frontend.

This project models the logic of that system:

- **Backend (Python):**
  - the CSV helpers (`csv_utils.py`): saving, preview, per-column statistics, the file listing and the size label;
  - the relevance service (`relevance_service.py`): parsing the model's answer, the annotation of every row and the output file;
  - the crawler service (`crawler_service.py`): the search URL, the paginated crawl loop, the multi-keyword crawl and saving the results.
- **Frontend (JavaScript):**
  - the pure helpers (`helpers.js`);
  - the bulk-download dialog;
  - the state handlers of the crawl, relevance and results pages.

Each module corresponds to one source file:

| module | source |
|---|---|
| `Wrappers` | (shared) |
| `Text` | string helpers shared by both sides |
| `Paths` | `posixpath` |
| `Sorting` | stable descending sort |
| `CsvUtils` | `csv_utils.py` |
| `RelevanceService` | `relevance_service.py` |
| `CrawlerService` | `crawler_service.py` |
| `Helpers` | `helpers.js` |
| `BulkDownload` | `BulkDownloadButton.js` |
| `CrawlerPage` | `CrawlerPage.js` |
| `RelevancePage` | `RelevancePage.js` |
| `ResultsPage` | `ResultsPage.js` |

Modelling choices:

- **CSV files.** A CSV file is the `Table` that `csv.DictReader` yields: its header plus its rows, each row a map from column to text. The file system is the `CsvUtils.Disk` object, a map from path to table. Saving updates that map in place.
- **Outside calls become inputs.** Everything the code obtains from outside is a parameter:
  - the HTTP answer of the language model, one `ApiReply` per call, indexed by row position;
  - each result page of the news search, a `Page` per (keyword, page number);
  - a keyword whose crawl raises an exception;
  - read, write and copy failures;
  - the directory listing with `os.stat` data;
  - the clock's timestamp.
- **Loops become methods.** Where the source loops and updates state, the model is a method with loop invariants, proved equal to a specification function:
  - `CountColumn`, `GetCsvPreview`, `GetCsvFiles`;
  - `AnnotateRows`;
  - `TakeFromPage`, `CrawlKeyword`, `CrawlKeywords`;
  - `ScheduleDownloads`.
- **React components become classes.** Each component's state is a class whose `useState` variables are its fields, and each handler is a method.
- **Local storage** is a `storage` field holding the stored values.
- **Requests to the backend** are recorded in a `requests` field.

## Model

| member | source | states |
|---|---|---|
| CsvUtils.SaveToCsv | backend/app/utils/csv_utils.py:11-60 | The records' header is the field names `list(data[0].keys())`: the first record's keys, each once. Empty data yields the bare failure value and writes nothing. A write that raises (including a record with a key outside the field names) yields `(False, None)` and writes nothing. Success happens exactly in the remaining case. After success, the file holds every record under the first record's field names, with missing cells empty, and reads back well-formed. When copying is asked for and possible, an identical copy sits at `download_path/basename` and that path is returned; otherwise no copy path is returned. Every other file is unchanged. |
| CsvUtils.PreviewLength | backend/app/utils/csv_utils.py:106-109 | The loop takes `min(rows, max_rows)` rows, and none when `max_rows` is not positive. |
| CsvUtils.GetCsvPreview | backend/app/utils/csv_utils.py:84-119 | A missing file gives the "File not found" error, and an exception while reading gives its text as the error. Otherwise the preview is the first `PreviewLength` rows in file order, `total_columns == len(column_names)`, and `total_rows` is the row count. |
| CsvUtils.Bump | backend/app/utils/csv_utils.py:178 | `d[k] = d.get(k, 0) + 1` raises the count of `k` by one and leaves every other count alone. It adds one to the total, keeps keys distinct and counts positive, and appends a new key at the end (dict insertion order). |
| CsvUtils.TallyOf | backend/app/utils/csv_utils.py:174-178 | The counting dictionary of a column has distinct keys and counts ≥ 1. Its keys are exactly the non-empty values, each count is that value's number of occurrences, and the counts sum to the number of non-empty cells. |
| CsvUtils.NonEmptyValuesAt | backend/app/utils/csv_utils.py:176-177 | A value is a key of the dictionary iff it is non-empty and occurs in the column. |
| CsvUtils.ColumnCounts | backend/app/utils/csv_utils.py:173-179 | For any column of any rows: keys are exactly the non-empty cells present, counts are occurrence counts ≥ 1, and their sum is the number of rows with a non-empty cell. This holds for keywords and, at lines 188-194, categories. |
| CsvUtils.CountColumn | backend/app/utils/csv_utils.py:174-179 | The `for row in data` loop builds exactly `TallyOf` of the column, so `ColumnCounts` applies to what it returns. |
| CsvUtils.RelevantCount | backend/app/utils/csv_utils.py:182-184 | The number of rows whose lower-cased `is_relevant` is `true`, `1` or `yes` never exceeds the number of rows. |
| CsvUtils.StatsOf | backend/app/utils/csv_utils.py:162-194 | "Empty file" iff there are no data rows. Otherwise `total_rows` is the row count and the column names are the header, with `total_columns` their number. Each of `keyword_counts`, `relevant_count` and `category_counts` is present iff its column is. `relevant_count ≤ total_rows`. |
| CsvUtils.GetCsvStatistics | backend/app/utils/csv_utils.py:144-199 | A missing file gives "File not found"; otherwise the result is `StatsOf` the file, computed with `CountColumn`. |
| CsvUtils.FormatSize | backend/app/utils/csv_utils.py:256-273 | The unit is B iff size < 1024 (exact count), KB iff < 1024², MB iff < 1024³, and GB otherwise. The scaled value times the unit is the size, and it lies in [1, 1024) for KB and MB. |
| CsvUtils.CsvInfosFlags | backend/app/utils/csv_utils.py:217-246 | Exactly the entries whose names end in `.csv` are listed, each as the record built from its own entry. `is_evaluated` holds iff the name contains `_evaluated`. |
| CsvUtils.InfoOf | backend/app/utils/csv_utils.py:235-244 | The record of an entry carries its name, a path whose base name is that name, its size with the `format_size` label and its modification time. `has_evaluation` holds iff the header was read and has `is_relevant`; `is_evaluated` iff the name contains `_evaluated`. |
| CsvUtils.CollectCsvInfos | backend/app/utils/csv_utils.py:215-246 | The `for file_name in os.listdir(directory)` loop fails exactly when some `.csv` entry cannot be inspected; otherwise it yields the record of every `.csv` entry in listing order. |
| CsvUtils.GetCsvFiles | backend/app/utils/csv_utils.py:201-254 | A missing or unlistable directory gives `[]`, and so does a `.csv` entry that `os.stat` cannot inspect (the outer handler). Otherwise the result is a permutation of the `.csv` records, namely their stable newest-first sort, so it is non-increasing in `modified_time`. Every name ends in `.csv`, and `is_evaluated` is set iff the name contains `_evaluated`. |
| Sorting.SortDesc | backend/app/utils/csv_utils.py:249 | `list.sort(key, reverse=True)` returns a permutation of its input. |
| Sorting.SortDescSorted | backend/app/utils/csv_utils.py:249 | The sorted list is non-increasing in the key. |
| Sorting.SortDescStable | backend/app/utils/csv_utils.py:249 | Entries with equal keys keep their original relative order (Python's sort stays stable under `reverse=True`, and so does `Array.prototype.sort`). |
| RelevanceService.CategoryAt | backend/app/services/relevance_service.py:140 | A category match at a position captures one of the four category names. |
| RelevanceService.SearchCategory | backend/app/services/relevance_service.py:157-158 | Whatever `re.search` finds for the category pattern is one of the four categories. |
| RelevanceService.ParseReply | backend/app/services/relevance_service.py:138-170 | A labelled `적합성:` match decides relevance by its word; without one, relevance holds iff the lower-cased text contains `true` (what line 147 reduces to). The reason is the stripped `이유:` capture, or else the default reason. The category is the labelled one, or else the fallback; it is always one of the four. |
| RelevanceService.FallbackPriority | backend/app/services/relevance_service.py:161-168 | The fallback is 자사 언급기사 iff `자사`/`코스맥스` occurs; 업계 관련기사 iff not that and `업계`/`화장품` occurs; 건강기능식품·펫푸드 iff neither earlier test holds and `건강`/`펫`/`식품` occurs; 기타 otherwise. |
| RelevanceService.CheckArticleRelevance | backend/app/services/relevance_service.py:132-178 | An exception gives `(False, "요청 처리 중 오류: …", "기타")` and a non-200 status gives `(False, "API 오류: <status>", "기타")`. A 200 answer is parsed by `ParseReply`. The category is always one of the four. |
| RelevanceService.RenderRelevance | backend/app/services/relevance_service.py:138-144 | In an answer written in the requested format, the relevance search finds the written verdict. |
| RelevanceService.RenderReason | backend/app/services/relevance_service.py:139-151 | In such an answer, the reason search finds exactly the written one-line reason. |
| RelevanceService.RenderCategory | backend/app/services/relevance_service.py:140-158 | In such an answer, the category search finds the written category. |
| RelevanceService.ParseRender | backend/app/services/relevance_service.py:138-170 | Round trip: parsing the three-line answer the prompt asks for returns the verdict it was written from. |
| RelevanceService.Annotate | backend/app/services/relevance_service.py:220-222 | A row gains exactly `is_relevant`, `relevance_reason` and `category`, holding the verdict. Every other key keeps its value. |
| RelevanceService.TrueFlagText | backend/app/services/relevance_service.py:220 | A Python bool written to the file reads back (lower-cased) as a relevant flag iff it was `True`. |
| RelevanceService.AnnotatedHeader | backend/app/services/relevance_service.py:220-222 | The written field names are the original columns in order, followed by the result columns they lacked, and nothing else. |
| RelevanceService.AnnotatedHeaderDistinct | backend/app/services/relevance_service.py:220-222 | The written field names repeat no column when the original header did not, and they are the original columns plus the three result columns. |
| RelevanceService.AnnotateAll | backend/app/services/relevance_service.py:210-224 | Annotation keeps the number and order of rows; row `i` carries the verdict of the `i`-th call. |
| RelevanceService.AnnotateRows | backend/app/services/relevance_service.py:210-224 | The loop produces exactly `AnnotateAll`. |
| RelevanceService.Evaluated | backend/app/services/relevance_service.py:210-224 | The evaluated records are as many as the file's rows, each with the three result columns added. For a well-formed file, the header is the first evaluated record's keys and every record can be written under it. |
| RelevanceService.EvaluatedWritable | backend/app/services/relevance_service.py:230 | Records that `csv.DictWriter` accepts are still accepted after annotation. |
| RelevanceService.OutputPathPlacement | backend/app/services/relevance_service.py:227-228 | The evaluated file is in the input's directory, under the base name with `.csv` replaced by `_evaluated.csv`. |
| RelevanceService.ProcessFile | backend/app/services/relevance_service.py:180-240 | A missing file gives the error `File not found`. A file whose first row has `is_relevant` and `category` is returned as is, with its statistics, flagged as already processed, and nothing is written. A file without rows writes nothing and gives the save error. Otherwise the annotated file is written next to it and its statistics are returned. As written, a write that raises writes nothing yet reports the output path, with the statistics of whatever file already sits there (or `File not found`). |
| RelevanceService.FailedWriteReportedAsSuccess | backend/app/services/relevance_service.py:230-233 | As written, a save that raised, `(False, None)`, passes the `if not success` check and is reported as a processed file; the corrected check reports the save error. |
| RelevanceService.AsWrittenOutcome | backend/app/services/relevance_service.py:230-240 | As written, the save error is reported iff `save_to_csv` returned the bare `False` of empty data; any other result reports the output path with its statistics. |
| RelevanceService.Outcome | backend/app/services/relevance_service.py:230-240 | Corrected check: the output is reported iff the file was saved; otherwise the result is the save error. |
| RelevanceService.OutcomesAgreeUnlessWriteFailed | backend/app/services/relevance_service.py:230-231 | The check as written and the corrected check give different results exactly on a write that raised. |
| RelevanceService.EvaluatedStats | backend/app/services/relevance_service.py:236-240 | The statistics of the evaluated file count every row. `relevant_count` equals the number of relevant verdicts. Category counts exist, sum to the number of rows, and have only the four categories as keys. |
| CrawlerService.QuotePlusRoundTrip | backend/app/services/crawler_service.py:61 | Decoding the `quote_plus` encoding of the keyword gives back the keyword's UTF-8 bytes. |
| CrawlerService.QuotePlus | backend/app/services/crawler_service.py:61 | `quote_plus` leaves only unreserved ASCII characters, `+` and `%` escapes. |
| CrawlerService.QuotePlusNoAmpersand | backend/app/services/crawler_service.py:61 | The encoded keyword never contains `&`, so it cannot split a parameter. |
| CrawlerService.SearchUrlParams | backend/app/services/crawler_service.py:50-62 | The query string splits on `&` into the seven parameters in their fixed order. `query=` decodes to the keyword, and `start=` is the decimal of `(page-1)*10+1`. |
| CrawlerService.TakeUsableBounds | backend/app/services/crawler_service.py:110-129 | Taking items from a page only appends to what was collected. It never goes past `max_news` (unless already past it). Every appended item has a title, a URL and the keyword. |
| CrawlerService.TakeFromPage | backend/app/services/crawler_service.py:110-129 | The inner `for item in items` loop computes `TakeUsable`. |
| CrawlerService.Crawl | backend/app/services/crawler_service.py:79-146 | The `while` loop stops without a request iff `max_news` articles are already held, and it never goes past page 20. |
| CrawlerService.CrawlFrom | backend/app/services/crawler_service.py:79-146 | From any page, with items collected so far: the crawl extends them and stays within `max_news`, and every new item is valid. Pages stay within 20. The crawl stops before requesting iff `max_news` is already reached. Every page it went past was a full page (status 200, ≥ 10 items). |
| CrawlerService.CrawlKeywordBounds | backend/app/services/crawler_service.py:76-149 | `crawl_keyword` returns at most `max_news` items, and none without requesting a page when `max_news ≤ 0`. Every item is valid for the keyword. Only pages 1..20 are requested. It goes past a page only when that page was full. |
| CrawlerService.CrawlDependsOnRequestedPages | backend/app/services/crawler_service.py:82-85 | The result depends only on the pages the crawl actually requests. |
| CrawlerService.CrawlPage | backend/app/services/crawler_service.py:80-146 | One pass of the loop body. It continues to the next page exactly when the page was full and page 20 was not reached; otherwise the crawl ends here with what was taken. A failed, non-200 or empty page ends it unchanged. |
| CrawlerService.CrawlKeyword | backend/app/services/crawler_service.py:64-149 | The `while` loop returns the items of the crawl specification and requests pages 1, 2, … in order, one per iteration. |
| CrawlerService.CrawlAll | backend/app/services/crawler_service.py:151-174 | The articles of the keywords whose crawl did not raise, in keyword order; none when every crawl raised. |
| CrawlerService.CrawlAllBounds | backend/app/services/crawler_service.py:151-174 | The combined list has at most `len(keywords) * max_news` items. Each item belongs to a listed keyword whose crawl did not raise, and is valid for it. |
| CrawlerService.CrawlKeywords | backend/app/services/crawler_service.py:151-174 | The result is the per-keyword results concatenated in keyword order. The error keys are exactly the keywords whose crawl raised, each mapped to its message. |
| CrawlerService.NewsTableWritable | backend/app/services/crawler_service.py:122-129 | Article records all have the same six columns, listed once each in the first record's key order, one record per article, so writing them cannot fail on a stray key. |
| CrawlerService.SaveResults | backend/app/services/crawler_service.py:176-217 | An empty list returns `None` and writes nothing. A failed write writes nothing. Otherwise `naver_news_<timestamp>.csv` in the results folder holds the articles and its path is returned. With `AUTO_COPY_TO_DOWNLOADS`, a download folder and a copy that succeeds, an identical copy is at `download folder/basename` and its path is returned too; otherwise no copy path is returned. No other file changes. |
| Helpers.DedupProperties | frontend/src/utils/helpers.js:37 | `[...new Set(s)]` holds exactly the values of `s`, once each, in first-occurrence order. |
| Helpers.RemoveDuplicates | frontend/src/utils/helpers.js:36-38 | A value is in the result iff it is a trimmed input and non-empty. |
| Helpers.RemoveDuplicatesOrder | frontend/src/utils/helpers.js:36-38 | `removeDuplicates` holds no value twice, in the order in which the trimmed values first occur. |
| Helpers.RemoveDuplicatesMembers | frontend/src/utils/helpers.js:36-38 | The output holds exactly the trimmed inputs that are non-empty. |
| Helpers.RemoveDuplicatesTrimmed | frontend/src/utils/helpers.js:36-38 | Every output value is non-empty and already trimmed. |
| Helpers.RemoveDuplicatesIdempotent | frontend/src/utils/helpers.js:36-38 | Applying `removeDuplicates` twice is the same as applying it once. |
| Helpers.SliceEnd | frontend/src/utils/helpers.js:26 | The end index `slice` uses is clamped to the length, and equals the argument when that is in range. |
| Helpers.TruncateText | frontend/src/utils/helpers.js:23-27 | Falsy text gives `''` and text within `maxLength` comes back unchanged. Longer text becomes a prefix followed by `...`, of length `maxLength + 3` for a non-negative limit. |
| Helpers.CategoryColorAsWritten | frontend/src/utils/helpers.js:49 | The object lookup yields an inherited `Object.prototype` member exactly for the non-category names of those members. |
| Helpers.ConstructorCategoryHasNoColour | frontend/src/utils/helpers.js:49 | As written, the category `constructor` gets the `Object` function rather than the grey fallback. |
| Helpers.GetCategoryColor | frontend/src/utils/helpers.js:41-50 | The four categories get their fixed colours and anything else gets `#757575`. This agrees with the lookup wherever that lookup gives a colour. |
| BulkDownload.FindByName | frontend/src/components/common/BulkDownloadButton.js:47 | `findIndex` by `file_name` gives the first index holding that name, and `-1` iff no entry has that name. |
| BulkDownload.ToggleFlips | frontend/src/components/common/BulkDownloadButton.js:46-57 | A toggle flips whether the name is selected, leaves every other name as it was, and never creates a repeated name. |
| BulkDownload.ToggleTwiceRestores | frontend/src/components/common/BulkDownloadButton.js:46-57 | Toggling an unselected file twice restores the selection. |
| BulkDownload.ToggleTwiceMoves | frontend/src/components/common/BulkDownloadButton.js:46-57 | Toggling a selected file twice moves it to the end of the selection. |
| BulkDownload.EqualLengthsMeanAllSelected | frontend/src/components/common/BulkDownloadButton.js:60 | The length comparison is sound: a duplicate-free selection drawn from the listed files with the same length holds every listed name. |
| BulkDownload.ScheduleDownloads | frontend/src/components/common/BulkDownloadButton.js:72-76 | The `i`-th selected file is scheduled at `i*1000` ms, and the delays strictly increase. |
| BulkDownload.BulkDownloadButton.constructor | frontend/src/components/common/BulkDownloadButton.js:34-35 | The dialog starts closed with an empty selection. |
| BulkDownload.BulkDownloadButton.HandleOpen | frontend/src/components/common/BulkDownloadButton.js:37-40 | Opening the dialog clears the selection and keeps the invariant that selected names are listed and distinct. |
| BulkDownload.BulkDownloadButton.HandleClose | frontend/src/components/common/BulkDownloadButton.js:42-44 | Closing changes only `open`. |
| BulkDownload.BulkDownloadButton.HandleToggle | frontend/src/components/common/BulkDownloadButton.js:46-57 | The selection becomes `Toggled`: appended when absent, that entry spliced out otherwise. The invariant is kept. |
| BulkDownload.BulkDownloadButton.HandleSelectAll | frontend/src/components/common/BulkDownloadButton.js:59-65 | Equal lengths clear the selection; otherwise every file is selected. The invariant is kept. |
| BulkDownload.BulkDownloadButton.HandleDownload | frontend/src/components/common/BulkDownloadButton.js:67-78 | An empty selection does nothing. Otherwise the staggered downloads are appended in selection order and the dialog closes. |
| CrawlerPage.FindCategory | frontend/src/pages/CrawlerPage.js:100 | `find` by name gives the first category of that name, and nothing iff none has it. |
| CrawlerPage.SpliceOne | frontend/src/pages/CrawlerPage.js:89-91 | `splice(index, 1)` removes exactly the element at an in-range index (a negative index counts from the end) and nothing past the end. |
| CrawlerPage.AddToCleanList | frontend/src/pages/CrawlerPage.js:79-85 | For a list already de-duplicated, adding a keyword appends its trimmed form when new and leaves the list as it is otherwise. |
| CrawlerPage.MergeKeepsBoth | frontend/src/pages/CrawlerPage.js:103-104 | Merging two lists keeps exactly the non-blank trimmed keywords of either. This covers both the category merge and the saved-list merge at line 114. |
| CrawlerPage.CrawlerPageState.constructor | frontend/src/pages/CrawlerPage.js:54-60 | The initial state: no keywords, 50 items per keyword, no saved keywords. |
| CrawlerPage.CrawlerPageState.HandleAddKeyword | frontend/src/pages/CrawlerPage.js:79-85 | A blank input changes nothing. Otherwise the list becomes `removeDuplicates(keywords ++ [trimmed])` and the input is cleared. Every other state variable, the storage and the requests are unchanged. |
| CrawlerPage.CrawlerPageState.HandleDeleteKeyword | frontend/src/pages/CrawlerPage.js:88-92 | Deleting at an in-range index removes exactly that keyword; the others keep their order. Nothing else changes. |
| CrawlerPage.CrawlerPageState.HandleCategorySelect | frontend/src/pages/CrawlerPage.js:95-107 | The selection is recorded. A known category merges its keywords through `removeDuplicates`. An empty or unknown one leaves the list unchanged. Nothing else changes. |
| CrawlerPage.CrawlerPageState.HandleSaveKeywords | frontend/src/pages/CrawlerPage.js:110-128 | An empty list does nothing. Otherwise the saved list becomes `removeDuplicates(saved ++ keywords)`, is stored under `savedKeywords`, and the success alert is shown. Nothing else changes. |
| CrawlerPage.CrawlerPageState.HandleLoadSavedKeyword | frontend/src/pages/CrawlerPage.js:131-136 | A saved keyword is appended only when it is not yet in the list. Nothing else changes. |
| CrawlerPage.CrawlerPageState.HandleCrawl | frontend/src/pages/CrawlerPage.js:139-156 | With no keywords, the error alert is shown and nothing is stored or requested. Otherwise the keywords and the per-keyword limit are stored, the page is loading, the request is sent and the alert is left as it was. The keyword lists, the input, the limit and the category never change. |
| RelevancePage.UnevaluatedFiles | frontend/src/pages/RelevancePage.js:93 | The filter keeps exactly the files with neither `has_evaluation` nor `is_evaluated`. |
| RelevancePage.RelevancePageState.constructor | frontend/src/pages/RelevancePage.js:50-55 | The initial state: no files, no selection, an empty key and the default model. |
| RelevancePage.RelevancePageState.LoadFiles | frontend/src/pages/RelevancePage.js:89-102 | A successful listing shows only the unevaluated files; a failure shows the error alert. |
| RelevancePage.RelevancePageState.HandleSaveApiKey | frontend/src/pages/RelevancePage.js:105-120 | The key is stored only when its trimmed form is non-empty, and it is stored untrimmed. |
| RelevancePage.RelevancePageState.HandleModelChange | frontend/src/pages/RelevancePage.js:128-132 | The model becomes the choice, and the same value is stored. |
| RelevancePage.RelevancePageState.HandleEvaluate | frontend/src/pages/RelevancePage.js:135-157 | No file selected: error, and no request. Otherwise an empty key: error, and no request. Otherwise one request with file, key and model is sent. |
| ResultsPage.EvaluatedFiles | frontend/src/pages/ResultsPage.js:96 | The filter keeps exactly the files with `has_evaluation` or `is_evaluated`. |
| ResultsPage.FilesPartition | frontend/src/pages/ResultsPage.js:96 | The results page's filter and the relevance page's filter split every listing between them. |
| ResultsPage.AutoSelect | frontend/src/pages/ResultsPage.js:96-99 | No file is auto-selected iff the listing holds no evaluated file. |
| ResultsPage.AutoSelectFirst | frontend/src/pages/ResultsPage.js:96-99 | The auto-selected file is the first evaluated file of the listing. |
| ResultsPage.ObjectEntries | frontend/src/pages/ResultsPage.js:167-168 | `Object.entries` of the counts holds exactly the counted entries, as many as there are. |
| ResultsPage.ObjectEntriesOrder | frontend/src/pages/ResultsPage.js:167-168 | `Object.keys`/`Object.entries` order: array-index keys come first, ascending, then the other keys. |
| ResultsPage.ObjectEntriesInOrder | frontend/src/pages/ResultsPage.js:167-168 | Without array-index keys, the entries come in insertion order. |
| ResultsPage.ObjectEntriesTotal | frontend/src/pages/ResultsPage.js:168 | The entries keep every count, so their sum is unchanged. |
| ResultsPage.CategoriesAreNotIndices | frontend/src/pages/ResultsPage.js:167 | No category name is an array index, so the category chart follows the counting order. |
| ResultsPage.CategoryChartData | frontend/src/pages/ResultsPage.js:164-180 | No chart without category counts. Otherwise labels, data and colours have one entry per category, the `i`-th (label, count) pair is the `i`-th entry of `Object.entries` of the counts, and each colour is `getCategoryColor(label)`. |
| ResultsPage.CategoryChartTotal | frontend/src/pages/ResultsPage.js:164-180 | The category chart of a file's statistics sums to the number of rows with a category. |
| ResultsPage.RelevanceChartAsWritten | frontend/src/pages/ResultsPage.js:183-196 | As written, there is no chart iff `relevant_count` is missing or 0. |
| ResultsPage.RelevanceChartAsWrittenHasNaN | frontend/src/pages/ResultsPage.js:190 | As written, the second slice reads `total_count`, which the statistics lack, and is `NaN`. |
| ResultsPage.RelevanceChartData | frontend/src/pages/ResultsPage.js:183-196 | Corrected: no chart iff `relevant_count` is missing or 0. Otherwise the two slices are `relevant_count` and the rest of `total_rows`. |
| ResultsPage.RelevanceChartSlices | frontend/src/pages/ResultsPage.js:190 | For a file's statistics, the slices are the relevant rows and the other rows, and neither slice is negative. |
| ResultsPage.TopKeywords | frontend/src/pages/ResultsPage.js:203 | At most 10 entries (exactly 10 when there are that many keywords), each a counted keyword, and no entry more often than it is counted. |
| ResultsPage.TopKeywordsSorted | frontend/src/pages/ResultsPage.js:203 | The shown counts are non-increasing. |
| ResultsPage.TopKeywordsAreTop | frontend/src/pages/ResultsPage.js:203 | A keyword left out of the chart is counted no more than any keyword shown. |
| ResultsPage.KeywordChartData | frontend/src/pages/ResultsPage.js:199-205 | No chart without keyword counts. Otherwise labels and data are parallel, at most 10 long (10 when there are that many keywords), non-increasing, and the `i`-th pair is the `i`-th of the top keywords. |
| ResultsPage.ResultsPageState.constructor | frontend/src/pages/ResultsPage.js:58-66 | The initial state: no files, no selection, no statistics. |
| ResultsPage.ResultsPageState.HandleSelectFile | frontend/src/pages/ResultsPage.js:113-134 | The file is selected. Its statistics are shown, or the error alert when loading them failed. |
| ResultsPage.ResultsPageState.LoadFiles | frontend/src/pages/ResultsPage.js:89-110 | The listing is shown and its first evaluated file, if any, is selected with its statistics, or with the error alert and the previous statistics when loading them failed; without an evaluated file the selection, statistics and alert stay. A failure shows the error alert and changes nothing else. |
| ResultsPage.ResultsPageState.HandleDownload | frontend/src/pages/ResultsPage.js:152-161 | Without a selected file nothing happens. Otherwise its download starts and the snackbar names it. |

## Left out

- HTTP: the calls to Naver and OpenAI, and axios in the frontend. The answers are inputs: one `ApiReply` per evaluated row, one `Page` per (keyword, page number), one optional fault per keyword.
- HTML extraction (`naver_news_helper.py`): the candidates of a page are given as already extracted (title, URL, source, date, content). naver_news_helper.py is not part of this model.
- `crawl_keyword` catches every exception itself (lines 144-146), which the model treats as a `Failed` page. The keyword faults of `crawl_keywords` stand for exceptions that escape it anyway.
- CrawlerService.CrawlKeyword: records page numbers instead of URL strings. The URL of page `p` is `BuildSearchUrl(keyword, p)`, whose parameters `SearchUrlParams` describes.
- The CSV codec: quoting, encodings and the BOM are not modelled. A file is the `Table` that `csv.DictReader` yields, and the first record's keys are taken to be the header. Extra fields (the `None` key), short rows and repeated column names are not modelled.
- RelevanceService.ProcessFile: the input file is taken to be well-formed (distinct column names, every record keyed by exactly them), which is what `csv.DictReader` yields for files without the cases above.
- CsvUtils.GetCsvPreview: `total_rows` is the number of records `csv.DictReader` yields. `get_csv_row_count` (csv_utils.py:121-142) also counts blank lines, and it answers 0 when reading fails after the previewed rows were read, while the preview itself still succeeds.
- CsvUtils.SaveToCsv: a write failure is decided before anything is written, so a partly written file is not modelled. A copy onto the file itself, which `shutil.copy2` refuses, is not distinguished from a successful copy.
- `file_utils.py` (pandas wrappers), `mail_service.py`, the FastAPI endpoints, `schemas.py`, `config.py`, `main.py`, `backup/` and `fix_dependencies.py`: routing, declarations and start-up, outside the logic modelled here.
- Floating-point display:
  - the rounding of `relevant_percent`;
  - the one-decimal text of `format_size` above 1024 bytes (`FormatSize` gives the unit and the exact scaled value);
  - `formatFileSize`, `formatDate` and `modified_time_str`;
  - `Math.round` percentages.
- Modification times are integers; `st_mtime` is a float.
- Text.Lower: lower-cases ASCII letters only, and the probes this project looks for are ASCII or Hangul.
- Helpers.TruncateText: counts code points where JavaScript's `length` and `slice` count UTF-16 code units.
- A file that cannot be read or decoded, for the readers that go through `read_csv` (`process_file`, `get_csv_statistics`): `read_csv` catches the error and returns `[]` (csv_utils.py:76-82), so the model covers it as a `Table` with no rows. `get_csv_preview` opens the file itself and answers the error; its `readError` parameter models that. `process_file` then gets the bare `False` from `save_to_csv` and answers "Failed to save evaluated results", and `get_csv_statistics` answers "Empty file".
- `process_file`'s outer `except` (relevance_service.py:242-245) is not modelled: no call modelled here raises into it. The language model's answers are indexed by row position, and aliasing of the row dictionaries is not modelled.
- Browser and React:
  - localStorage failures;
  - `setTimeout` closing of alerts;
  - navigation;
  - the handling of a request's answer after it is sent;
  - the initial `useEffect` loads;
  - loading the preview in `handleSelectFile`;
  - `toggleApiKeyMask`;
  - rendering.
- Timestamps in file names come from the clock and are a parameter.

## Findings

| source | as written | input that shows it | evidently intended | confidence | as-written member | corrected member |
|---|---|---|---|---|---|---|
| backend/app/services/relevance_service.py:230-231 | `if not success` tests the whole return value of `save_to_csv`, which is the non-empty (truthy) tuple `(False, None)` when the write raises (csv_utils.py:60); `ProcessFile` then reports the unwritten output path with stale statistics | a write that raises, e.g. an unwritable output path | report "Failed to save evaluated results" whenever the file was not written | high (not executed) | RelevanceService.FailedWriteReportedAsSuccess | RelevanceService.Outcome |
| frontend/src/pages/ResultsPage.js:190 | the second slice is `fileStats.total_count - fileStats.relevant_count`, but the statistics (csv_utils.py:166-167) carry `total_rows`, so the slice is `NaN` | statistics of any evaluated file with `relevant_count` ≥ 1 | `total_rows - relevant_count` | high (not executed) | ResultsPage.RelevanceChartAsWrittenHasNaN | ResultsPage.RelevanceChartData |
| frontend/src/utils/helpers.js:49 | `categoryColors[category] \|\| '#757575'` looks the name up through the prototype chain | the category `constructor` (or `toString`, …) | grey for every name that is not one of the four categories | medium (not executed) | Helpers.ConstructorCategoryHasNoColour | Helpers.GetCategoryColor |

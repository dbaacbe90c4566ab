/**
 * The relevance evaluator of the backend: reading the language model's
 * answer for one article (relevance, reason, category) and annotating every
 * row of a crawled CSV file with that answer.
 *
 * The HTTP call to the model is an oracle: its answer for the `i`-th
 * article of a file is `reply(i)`.
 */
module RelevanceService {
  import opened Wrappers
  import opened Text
  import Paths
  import opened CsvUtils

  const RelevanceLabel: string := "적합성:"
  const ReasonLabel: string := "이유:"
  const CategoryLabel: string := "카테고리:"

  const OwnCompany: string := "자사 언급기사"
  const Industry: string := "업계 관련기사"
  const HealthPet: string := "건강기능식품·펫푸드"
  const Other: string := "기타"

  const DefaultReason: string := "이유가 명확히 제시되지 않음"

  /** The four categories the prompt offers. */
  predicate IsCategory(c: string)
  {
    c == OwnCompany || c == Industry || c == HealthPet || c == Other
  }

  /** `(is_relevant, reason, category)`. */
  datatype Verdict = Verdict(isRelevant: bool, reason: string, category: string)

  /** What the HTTP call yields: a status and the message content, or an exception's text. */
  datatype ApiReply = Reply(status: int, content: string) | Raised(message: string)

  // ---------------------------------------------------------------------
  // The three regular expressions

  /** How many leading characters a greedy `\s*` consumes. */
  function LeadingSpaces(s: string): (n: nat)
    ensures n <= |s|
    ensures forall i :: 0 <= i < n ==> PyIsSpace(s[i])
    ensures n < |s| ==> !PyIsSpace(s[n])
  {
    if s != [] && PyIsSpace(s[0]) then 1 + LeadingSpaces(s[1..]) else 0
  }

  /** `re.search`: the match `at` finds at the first position where it finds one. */
  function Search<T>(s: string, at: string -> Option<T>): Option<T>
    decreases |s|
  {
    if at(s).Some? then at(s) else if s == [] then None else Search(s[1..], at)
  }

  /** Under `re.IGNORECASE`, a lower-case letter of the pattern matches itself, its upper case, and 's' also matches U+017F. */
  predicate MatchesLetter(c: char, p: char)
  {
    c == p || (c as int == p as int - 32) || (p == 's' && c as int == 0x17F)
  }

  predicate StartsIgnoringCase(s: string, word: string)
  {
    |word| <= |s| && forall i :: 0 <= i < |word| ==> MatchesLetter(s[i], word[i])
  }

  /** `적합성:\s*(true|false)` (case-insensitive) matched at the start of `s`: whether the word is `true`. */
  function RelevanceAt(s: string): Option<bool>
  {
    if !(RelevanceLabel <= s) then None
    else
      var rest := s[|RelevanceLabel|..];
      var word := rest[LeadingSpaces(rest)..];
      if StartsIgnoringCase(word, "true") then Some(true)
      else if StartsIgnoringCase(word, "false") then Some(false)
      else None
  }

  /**
   * Backtracking of `\s*` before `.+?`: the longest whitespace run, not
   * longer than `w`, after which a character other than a newline follows.
   */
  function CaptureStart(rest: string, w: nat): Option<nat>
    requires w <= |rest|
    ensures CaptureStart(rest, w).Some? ==>
              var k := CaptureStart(rest, w).value; k <= w && k < |rest| && rest[k] != '\n'
  {
    if w < |rest| && rest[w] != '\n' then Some(w)
    else if w == 0 then None
    else CaptureStart(rest, w - 1)
  }

  /** The first newline at or after `from`, or the end. */
  function LineEnd(s: string, from: nat): (e: nat)
    requires from <= |s|
    ensures from <= e <= |s|
    ensures forall i :: from <= i < e ==> s[i] != '\n'
    ensures e < |s| ==> s[e] == '\n'
    decreases |s| - from
  {
    if from == |s| || s[from] == '\n' then from else LineEnd(s, from + 1)
  }

  /** `이유:\s*(.+?)(?=\n|$)` matched at the start of `s`: the captured group. */
  function ReasonAt(s: string): Option<string>
  {
    if !(ReasonLabel <= s) then None
    else
      var rest := s[|ReasonLabel|..];
      match CaptureStart(rest, LeadingSpaces(rest))
      case None => None
      case Some(w) => Some(rest[w..LineEnd(rest, w)])
  }

  /** `카테고리:\s*(자사 언급기사|업계 관련기사|건강기능식품·펫푸드|기타)` matched at the start of `s`. */
  function CategoryAt(s: string): (r: Option<string>)
    ensures r.Some? ==> IsCategory(r.value)
  {
    if !(CategoryLabel <= s) then None
    else
      var rest := s[|CategoryLabel|..];
      var word := rest[LeadingSpaces(rest)..];
      if OwnCompany <= word then Some(OwnCompany)
      else if Industry <= word then Some(Industry)
      else if HealthPet <= word then Some(HealthPet)
      else if Other <= word then Some(Other)
      else None
  }

  lemma {:induction false} SearchCategory(s: string)
    ensures Search(s, CategoryAt).Some? ==> IsCategory(Search(s, CategoryAt).value)
    decreases |s|
  {
    if CategoryAt(s).None? && s != [] {
      SearchCategory(s[1..]);
    }
  }

  // ---------------------------------------------------------------------
  // Parsing the answer

  /** The category guessed from words in the (lower-cased) answer when no labelled one is found. */
  function FallbackCategory(lower: string): string
  {
    if Contains(lower, "자사") || Contains(lower, "코스맥스") then OwnCompany
    else if Contains(lower, "업계") || Contains(lower, "화장품") then Industry
    else if Contains(lower, "건강") || Contains(lower, "펫") || Contains(lower, "식품") then HealthPet
    else Other
  }

  /** The answer text of a successful call turned into a verdict. */
  function ParseReply(text: string): (v: Verdict)
    ensures IsCategory(v.category)
    ensures Search(text, RelevanceAt).Some? ==> v.isRelevant == Search(text, RelevanceAt).value
    ensures Search(text, RelevanceAt).None? ==> (v.isRelevant <==> Contains(Lower(text), "true"))
    ensures Search(text, ReasonAt).Some? ==> v.reason == PyStrip(Search(text, ReasonAt).value)
    ensures Search(text, ReasonAt).None? ==> v.reason == DefaultReason
    ensures Search(text, CategoryAt).Some? ==> v.category == Search(text, CategoryAt).value
    ensures Search(text, CategoryAt).None? ==> v.category == FallbackCategory(Lower(text))
  {
    var lower := Lower(text);
    var isRelevant :=
      match Search(text, RelevanceAt)
      case Some(b) => b
      case None => Contains(lower, "true") && !(Contains(lower, "false") && !Contains(lower, "true"));
    var reason :=
      match Search(text, ReasonAt)
      case Some(r) => PyStrip(r)
      case None => DefaultReason;
    SearchCategory(text);
    var category :=
      match Search(text, CategoryAt)
      case Some(c) => c
      case None => FallbackCategory(lower);
    Verdict(isRelevant, reason, category)
  }

  /**
   * Without a labelled category, the category follows the fixed priority
   * of the words the lower-cased answer mentions.
   */
  lemma FallbackPriority(l: string)
    ensures var c := FallbackCategory(l);
            var own := Contains(l, "자사") || Contains(l, "코스맥스");
            var industry := Contains(l, "업계") || Contains(l, "화장품");
            var health := Contains(l, "건강") || Contains(l, "펫") || Contains(l, "식품");
            && (c == OwnCompany <==> own)
            && (c == Industry <==> !own && industry)
            && (c == HealthPet <==> !own && !industry && health)
            && (c == Other <==> !own && !industry && !health)
  {
  }

  /** `check_article_relevance` given what the HTTP call yielded. */
  function CheckArticleRelevance(reply: ApiReply): (v: Verdict)
    ensures IsCategory(v.category)
    ensures reply.Raised? ==> v == Verdict(false, "요청 처리 중 오류: " + reply.message, Other)
    ensures reply.Reply? && reply.status != 200 ==> v == Verdict(false, "API 오류: " + IntToStr(reply.status), Other)
    ensures reply.Reply? && reply.status == 200 ==> v == ParseReply(reply.content)
  {
    match reply
    case Raised(message) => Verdict(false, "요청 처리 중 오류: " + message, Other)
    case Reply(status, content) =>
      if status == 200 then ParseReply(content)
      else Verdict(false, "API 오류: " + IntToStr(status), Other)
  }

  // ---------------------------------------------------------------------
  // The answer format the prompt asks for

  /** `적합성: <true|false>`, `이유: <reason>`, `카테고리: <category>` on three lines. */
  function Render(v: Verdict): string
  {
    RelevanceLabel + " " + (if v.isRelevant then "true" else "false") + "\n" +
    ReasonLabel + " " + v.reason + "\n" +
    CategoryLabel + " " + v.category
  }

  /** A verdict the format can carry: a one-line, stripped reason that does not itself hold a category label. */
  predicate Renderable(v: Verdict)
  {
    && IsCategory(v.category)
    && v.reason != [] && !PyIsSpace(v.reason[0]) && !PyIsSpace(v.reason[|v.reason| - 1])
    && '\n' !in v.reason
    && !Contains(v.reason, CategoryLabel)
  }

  lemma {:induction false} SearchSkip<T>(p: string, q: string, at: string -> Option<T>)
    requires forall i :: 0 <= i < |p| ==> at((p + q)[i..]).None?
    ensures Search(p + q, at) == Search(q, at)
    decreases |p|
  {
    if p != [] {
      assert (p + q)[0..] == p + q;
      assert (p + q)[1..] == p[1..] + q;
      forall i | 0 <= i < |p[1..]| ensures at((p[1..] + q)[i..]).None? {
        assert (p[1..] + q)[i..] == (p + q)[i + 1..];
      }
      SearchSkip(p[1..], q, at);
    } else {
      assert p + q == q;
    }
  }

  lemma OneSpace(x: string)
    requires x != [] && !PyIsSpace(x[0])
    ensures LeadingSpaces(" " + x) == 1 && (" " + x)[1..] == x
  {
    assert (" " + x)[1..] == x;
  }

  /** A match of `at` needs `label` at the start, and no character of `p` begins the label. */
  lemma SkipUnlabelled<T>(p: string, q: string, lbl: string, at: string -> Option<T>)
    requires lbl != [] && lbl[0] !in p
    requires forall s: string :: at(s).Some? ==> lbl <= s
    ensures Search(p + q, at) == Search(q, at)
  {
    forall i | 0 <= i < |p| ensures at((p + q)[i..]).None? {
      assert (p + q)[i..][0] == p[i];
    }
    SearchSkip(p, q, at);
  }

  lemma {:induction false} LineEndAt(s: string, from: nat, e: nat)
    requires from <= e < |s| && s[e] == '\n'
    requires forall i :: from <= i < e ==> s[i] != '\n'
    ensures LineEnd(s, from) == e
    decreases e - from
  {
    if from < e {
      LineEndAt(s, from + 1, e);
    }
  }

  lemma RelevanceAtLine(word: string, tail: string)
    requires word == "true" || word == "false"
    ensures RelevanceAt(RelevanceLabel + " " + word + tail) == Some(word == "true")
  {
    var s := RelevanceLabel + " " + word + tail;
    assert s[|RelevanceLabel|..] == " " + (word + tail);
    OneSpace(word + tail);
    assert (word + tail)[..|word|] == word;
  }

  lemma ReasonAtLine(reason: string, tail: string)
    requires reason != [] && !PyIsSpace(reason[0]) && '\n' !in reason
    ensures ReasonAt(ReasonLabel + " " + reason + "\n" + tail) == Some(reason)
  {
    var rest := " " + (reason + "\n" + tail);
    assert (ReasonLabel + " " + reason + "\n" + tail)[|ReasonLabel|..] == rest;
    OneSpace(reason + "\n" + tail);
    forall i | 1 <= i < 1 + |reason| ensures rest[i] != '\n' {
      assert rest[i] == reason[i - 1];
    }
    LineEndAt(rest, 1, 1 + |reason|);
    assert rest[1..1 + |reason|] == reason;
  }

  lemma CategoryAtLine(category: string)
    requires IsCategory(category)
    ensures CategoryAt(CategoryLabel + " " + category) == Some(category)
  {
    assert (CategoryLabel + " " + category)[|CategoryLabel|..] == " " + category;
    OneSpace(category);
  }

  lemma RenderRelevance(v: Verdict)
    ensures Search(Render(v), RelevanceAt) == Some(v.isRelevant)
  {
    var word := if v.isRelevant then "true" else "false";
    var tail := "\n" + ReasonLabel + " " + v.reason + "\n" + CategoryLabel + " " + v.category;
    assert Render(v) == RelevanceLabel + " " + word + tail;
    RelevanceAtLine(word, tail);
  }

  lemma RenderReason(v: Verdict)
    requires Renderable(v)
    ensures Search(Render(v), ReasonAt) == Some(v.reason)
  {
    var word := if v.isRelevant then "true" else "false";
    var p := RelevanceLabel + " " + word + "\n";
    var tail := CategoryLabel + " " + v.category;
    var q := ReasonLabel + " " + v.reason + "\n" + tail;
    assert Render(v) == p + q;
    assert ReasonLabel[0] !in p;
    SkipUnlabelled(p, q, ReasonLabel, ReasonAt);
    ReasonAtLine(v.reason, tail);
  }

  /** Before the line that starts with `lbl`, no position starts with `lbl`. */
  lemma NotLabelledBefore(lbl: string, head: string, reason: string, q: string, i: nat)
    requires lbl != [] && lbl[0] !in head && '\n' !in lbl && !Contains(reason, lbl)
    requires i < |head| + |reason| + 1
    ensures !(lbl <= (head + reason + "\n" + q)[i..])
  {
    var s := (head + reason + "\n" + q)[i..];
    if i < |head| {
      assert s[0] == head[i];
    } else if i - |head| + |lbl| <= |reason| {
      var o := i - |head|;
      if lbl <= s {
        assert reason[o..o + |lbl|] == s[..|lbl|];
        ContainsAt(reason, lbl, o);
      }
    } else {
      var k := |head| + |reason| - i;
      assert s[k] == '\n';
    }
  }

  lemma RenderCategory(v: Verdict)
    requires Renderable(v)
    ensures Search(Render(v), CategoryAt) == Some(v.category)
  {
    var word := if v.isRelevant then "true" else "false";
    var head := RelevanceLabel + " " + word + "\n" + ReasonLabel + " ";
    var p := head + v.reason + "\n";
    var q := CategoryLabel + " " + v.category;
    assert Render(v) == p + q;
    assert CategoryLabel[0] !in head && '\n' !in CategoryLabel;
    forall i | 0 <= i < |p| ensures CategoryAt((p + q)[i..]).None? {
      NotLabelledBefore(CategoryLabel, head, v.reason, q, i);
    }
    SearchSkip(p, q, CategoryAt);
    CategoryAtLine(v.category);
  }

  /** The parser reads back every verdict written in the format the prompt asks for. */
  lemma ParseRender(v: Verdict)
    requires Renderable(v)
    ensures ParseReply(Render(v)) == v
  {
    RenderRelevance(v);
    RenderReason(v);
    RenderCategory(v);
    StripStripped(v.reason, PySpaces);
  }

  // ---------------------------------------------------------------------
  // process_file

  /** A Python `bool` written to a CSV cell. */
  function BoolText(b: bool): string
  {
    if b then "True" else "False"
  }

  /** `row['is_relevant'] = ...`, `row['relevance_reason'] = ...`, `row['category'] = ...`. */
  function Annotate(row: Row, v: Verdict): (r: Row)
    ensures r.Keys == row.Keys + {"is_relevant", "relevance_reason", "category"}
    ensures r["is_relevant"] == BoolText(v.isRelevant)
    ensures r["relevance_reason"] == v.reason
    ensures r["category"] == v.category
    ensures forall k :: k in row && k != "is_relevant" && k != "relevance_reason" && k != "category" ==> r[k] == row[k]
  {
    row["is_relevant" := BoolText(v.isRelevant)]["relevance_reason" := v.reason]["category" := v.category]
  }

  /** A dictionary's key order after assigning `column`: kept if present, appended otherwise. */
  function AddColumn(header: seq<string>, column: string): (r: seq<string>)
  {
    if column in header then header else header + [column]
  }

  /** The field names of the first annotated record: the original columns, then the result columns it lacked. */
  function AnnotatedHeader(header: seq<string>): (r: seq<string>)
    ensures header <= r
    ensures forall c :: c in r <==> c in header || c == "is_relevant" || c == "relevance_reason" || c == "category"
  {
    AddColumn(AddColumn(AddColumn(header, "is_relevant"), "relevance_reason"), "category")
  }

  lemma AddColumnDistinct(header: seq<string>, column: string)
    ensures DistinctColumns(header) ==> DistinctColumns(AddColumn(header, column))
    ensures (set k | k in AddColumn(header, column)) == (set k | k in header) + {column}
  {
  }

  /** Annotation lists each column once when the original header did. */
  lemma AnnotatedHeaderDistinct(header: seq<string>)
    ensures DistinctColumns(header) ==> DistinctColumns(AnnotatedHeader(header))
    ensures (set k | k in AnnotatedHeader(header)) == (set k | k in header) + {"is_relevant", "relevance_reason", "category"}
  {
    var h1 := AddColumn(header, "is_relevant");
    var h2 := AddColumn(h1, "relevance_reason");
    AddColumnDistinct(header, "is_relevant");
    AddColumnDistinct(h1, "relevance_reason");
    AddColumnDistinct(h2, "category");
  }

  /** The records after the loop: the `i`-th annotated with the answer to the `i`-th call. */
  function AnnotateAll(rows: seq<Row>, reply: nat -> ApiReply): (r: seq<Row>)
    ensures |r| == |rows|
    ensures forall i :: 0 <= i < |rows| ==> r[i] == Annotate(rows[i], CheckArticleRelevance(reply(i)))
  {
    if rows == [] then []
    else AnnotateAll(rows[..|rows| - 1], reply) + [Annotate(rows[|rows| - 1], CheckArticleRelevance(reply(|rows| - 1)))]
  }

  /**
   * The table `process_file` hands to `save_to_csv`: every record with the
   * three result columns added, under the field names of the first one,
   * which a well-formed file's records can all be written under.
   */
  function Evaluated(t: Table, reply: nat -> ApiReply): (r: Table)
    ensures |r.rows| == |t.rows| && t.header <= r.header
    ensures forall i :: 0 <= i < |r.rows| ==>
              r.rows[i].Keys == t.rows[i].Keys + {"is_relevant", "relevance_reason", "category"}
    ensures WellFormed(t) ==> HeaderOfFirst(r) && Writable(r)
  {
    AnnotatedHeaderDistinct(t.header);
    Table(AnnotatedHeader(t.header), AnnotateAll(t.rows, reply))
  }

  /** A file whose records carry no stray keys still has none after annotation. */
  lemma EvaluatedWritable(t: Table, reply: nat -> ApiReply)
    ensures Writable(t) ==> Writable(Evaluated(t, reply))
  {
    var e := Evaluated(t, reply);
    if Writable(t) {
      forall i | 0 <= i < |e.rows| ensures e.rows[i].Keys <= set k | k in e.header {
        assert t.rows[i].Keys <= set k | k in t.header;
      }
    }
  }

  /** `os.path.join(os.path.dirname(p), os.path.basename(p).replace('.csv', '_evaluated.csv'))`. */
  function OutputPath(path: string): string
  {
    Paths.Join(Paths.Dirname(path), ReplaceAll(Paths.Basename(path), ".csv", "_evaluated.csv"))
  }

  /** The evaluated file sits next to the input, under the renamed base name. */
  lemma OutputPathPlacement(path: string)
    ensures Paths.Dirname(OutputPath(path)) == Paths.Dirname(path)
    ensures Paths.Basename(OutputPath(path)) == ReplaceAll(Paths.Basename(path), ".csv", "_evaluated.csv")
  {
    var name := ReplaceAll(Paths.Basename(path), ".csv", "_evaluated.csv");
    ReplaceAllKeepsOut(Paths.Basename(path), ".csv", "_evaluated.csv", '/');
    Paths.JoinDirname(path, name);
  }

  /** `data and 'is_relevant' in data[0] and 'category' in data[0]`. */
  predicate AlreadyProcessed(rows: seq<Row>)
  {
    rows != [] && "is_relevant" in rows[0] && "category" in rows[0]
  }

  /** `(output path, statistics)` with the `already_processed` flag, or `(None, {"error": ...})`. */
  datatype ProcessResult = Processed(outputPath: string, stats: StatsResult, alreadyProcessed: bool) | ProcessFailed(error: string)

  /** Lines 230-240 as written: `if not success` catches only the bare `False` of empty data. */
  function AsWrittenOutcome(save: SaveResult, output: string, statsAfter: StatsResult): (r: ProcessResult)
    ensures r.ProcessFailed? <==> save.EmptyData?
    ensures r.ProcessFailed? ==> r.error == "Failed to save evaluated results"
    ensures r.Processed? ==> r == Processed(output, statsAfter, false)
  {
    var success := !save.EmptyData?;
    if !success then ProcessFailed("Failed to save evaluated results")
    else Processed(output, statsAfter, false)
  }

  /** A write that raised yields `(False, None)`, a non-empty tuple that the check reads as success. */
  lemma FailedWriteReportedAsSuccess(output: string, statsAfter: StatsResult)
    ensures AsWrittenOutcome(SaveFailed, output, statsAfter) == Processed(output, statsAfter, false)
    ensures Outcome(SaveFailed, output, statsAfter) == ProcessFailed("Failed to save evaluated results")
  {
  }

  /** Lines 230-240 as intended: success only when the file was written. */
  function Outcome(save: SaveResult, output: string, statsAfter: StatsResult): (r: ProcessResult)
    ensures r.Processed? <==> save.Saved?
    ensures r.Processed? ==> r == Processed(output, statsAfter, false)
    ensures r.ProcessFailed? ==> r.error == "Failed to save evaluated results"
  {
    if !save.Saved? then ProcessFailed("Failed to save evaluated results")
    else Processed(output, statsAfter, false)
  }

  /** The code as written and the intended check part only on a write that raised. */
  lemma OutcomesAgreeUnlessWriteFailed(save: SaveResult, output: string, statsAfter: StatsResult)
    ensures AsWrittenOutcome(save, output, statsAfter) == Outcome(save, output, statsAfter) <==> !save.SaveFailed?
  {
  }

  /** The loop of `process_file`: each record in turn, annotated with the answer for it. */
  method AnnotateRows(data: seq<Row>, reply: nat -> ApiReply) returns (processed: seq<Row>)
    ensures processed == AnnotateAll(data, reply)
  {
    processed := [];
    var i := 0;
    while i < |data|
      invariant 0 <= i <= |data|
      invariant processed == AnnotateAll(data[..i], reply)
    {
      assert data[..i + 1][..i] == data[..i];
      processed := processed + [Annotate(data[i], CheckArticleRelevance(reply(i)))];
      i := i + 1;
    }
    assert data[..i] == data;
  }

  /**
   * `process_file`: annotate every record of the file with the model's
   * verdict and save the result as `<name>_evaluated.csv` next to it.
   * `writeFails` stands for an `OSError` while writing that file.
   */
  method ProcessFile(disk: Disk, path: string, reply: nat -> ApiReply, writeFails: bool) returns (r: ProcessResult)
    requires path in disk.files ==> WellFormed(disk.files[path])
    modifies disk
    ensures path !in old(disk.files) ==> r == ProcessFailed("File not found") && disk.files == old(disk.files)
    ensures path in old(disk.files) && AlreadyProcessed(old(disk.files)[path].rows) ==>
              r == Processed(path, StatsOf(old(disk.files)[path]), true) && disk.files == old(disk.files)
    ensures path in old(disk.files) && !AlreadyProcessed(old(disk.files)[path].rows) ==>
              var e := Evaluated(old(disk.files)[path], reply);
              var output := OutputPath(path);
              if e.rows == [] then
                disk.files == old(disk.files) && r == ProcessFailed("Failed to save evaluated results")
              else if writeFails then
                disk.files == old(disk.files) && r == Processed(output, StatsAt(old(disk.files), output), false)
              else
                && disk.files == old(disk.files)[output := Written(e)]
                && r == Processed(output, StatsOf(Written(e)), false)
  {
    if path !in disk.files {
      return ProcessFailed("File not found");
    }
    var t := disk.files[path];
    var data := t.rows;
    if AlreadyProcessed(data) {
      var stats := GetCsvStatistics(disk, path);
      return Processed(path, stats, true);
    }
    var processed := AnnotateRows(data, reply);
    var output := OutputPath(path);
    assert Table(AnnotatedHeader(t.header), processed) == Evaluated(t, reply);
    var save := SaveToCsv(disk, Table(AnnotatedHeader(t.header), processed), output, false, None, writeFails, false);
    var stats: StatsResult := StatsErr("File not found");
    if !save.EmptyData? {
      stats := GetCsvStatistics(disk, output);
    }
    r := AsWrittenOutcome(save, output, stats);
  }

  /** How many of the first `n` answers judge the article relevant. */
  function RelevantVerdicts(reply: nat -> ApiReply, n: nat): (k: nat)
    ensures k <= n
  {
    if n == 0 then 0
    else RelevantVerdicts(reply, n - 1) + (if CheckArticleRelevance(reply(n - 1)).isRelevant then 1 else 0)
  }

  lemma TrueFlagText(b: bool)
    ensures IsTrueFlag(BoolText(b)) <==> b
  {
    assert Lower("True") == "true";
    assert Lower("False") == "false";
  }

  lemma WrittenRelevance(t: Table, reply: nat -> ApiReply, i: nat)
    requires i < |t.rows|
    ensures Cell(Written(Evaluated(t, reply)).rows[i], "is_relevant") == BoolText(CheckArticleRelevance(reply(i)).isRelevant)
  {
    var e := Evaluated(t, reply);
    assert "is_relevant" in e.header;
  }

  lemma {:induction false} CountRelevantFlags(w: seq<Row>, reply: nat -> ApiReply, n: nat)
    requires n <= |w|
    requires forall i :: 0 <= i < |w| ==> (IsTrueFlag(Cell(w[i], "is_relevant")) <==> CheckArticleRelevance(reply(i)).isRelevant)
    ensures RelevantCount(w[..n]) == RelevantVerdicts(reply, n)
  {
    if n > 0 {
      assert w[..n][..n - 1] == w[..n - 1];
      assert w[..n][n - 1] == w[n - 1];
      CountRelevantFlags(w, reply, n - 1);
    }
  }

  lemma {:induction false} AllNonEmptyCount(vals: seq<string>)
    requires forall i :: 0 <= i < |vals| ==> vals[i] != ""
    ensures NonEmptyCount(vals) == |vals|
  {
    if vals != [] {
      AllNonEmptyCount(vals[..|vals| - 1]);
    }
  }

  /**
   * The statistics of an evaluated file: the relevant count is the number
   * of relevant verdicts, and the category counts cover every record with
   * one of the four categories.
   */
  lemma EvaluatedStats(t: Table, reply: nat -> ApiReply)
    requires t.rows != []
    ensures var r := StatsOf(Written(Evaluated(t, reply)));
            && r.StatsOk?
            && r.stats.totalRows == |t.rows|
            && r.stats.relevantCount == Some(RelevantVerdicts(reply, |t.rows|))
            && r.stats.categoryCounts.Some?
            && Total(r.stats.categoryCounts.value) == |t.rows|
            && forall c :: c in Keys(r.stats.categoryCounts.value) ==> IsCategory(c)
  {
    EvaluatedRelevantCount(t, reply);
    EvaluatedCategoryColumn(t, reply);
  }

  lemma EvaluatedRelevantCount(t: Table, reply: nat -> ApiReply)
    ensures RelevantCount(Written(Evaluated(t, reply)).rows) == RelevantVerdicts(reply, |t.rows|)
  {
    var w := Written(Evaluated(t, reply)).rows;
    assert w[..|w|] == w;
    forall i | 0 <= i < |w| ensures IsTrueFlag(Cell(w[i], "is_relevant")) <==> CheckArticleRelevance(reply(i)).isRelevant {
      WrittenRelevance(t, reply, i);
      TrueFlagText(CheckArticleRelevance(reply(i)).isRelevant);
    }
    CountRelevantFlags(w, reply, |w|);
  }

  lemma EvaluatedCategoryColumn(t: Table, reply: nat -> ApiReply)
    ensures var vals := Column(Written(Evaluated(t, reply)).rows, "category");
            && NonEmptyCount(vals) == |vals|
            && forall c :: c in NonEmptyValues(vals) ==> IsCategory(c)
  {
    var w := Written(Evaluated(t, reply)).rows;
    var vals := Column(w, "category");
    forall i | 0 <= i < |vals| ensures IsCategory(vals[i]) {
      assert vals[i] == CheckArticleRelevance(reply(i)).category;
    }
    AllNonEmptyCount(vals);
    forall c | c in NonEmptyValues(vals) ensures IsCategory(c) {
      NonEmptyValuesAt(vals, c);
    }
  }
}

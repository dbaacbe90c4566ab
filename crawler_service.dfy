/**
 * The Naver news crawler of the backend: the search URL, the paginated
 * crawl of one keyword, the crawl of a keyword list and the saving of the
 * collected articles.
 *
 * Fetching and parsing a result page is an oracle: `fetch(keyword, page)`
 * is what the request for `BuildSearchUrl(keyword, page)` yields, read
 * through the page's news-item extractors (or a failure).
 */
module CrawlerService {
  import opened Wrappers
  import opened Text
  import Paths
  import opened CsvUtils

  const BaseUrl: string := "https://search.naver.com/search.naver"

  /** Naver serves ten results per page and at most twenty pages. */
  const PageSize: nat := 10
  const MaxPage: nat := 20

  // ---------------------------------------------------------------------
  // quote_plus

  type Byte = b: int | 0 <= b < 256

  /** The UTF-8 encoding of one character. */
  function Utf8(c: char): (bs: seq<Byte>)
    ensures 1 <= |bs| <= 4
    ensures c as int < 0x80 <==> bs == [c as int]
  {
    var cp := c as int;
    if cp < 0x80 then [cp]
    else if cp < 0x800 then [0xC0 + cp / 64, 0x80 + cp % 64]
    else if cp < 0x10000 then [0xE0 + cp / 4096, 0x80 + (cp / 64) % 64, 0x80 + cp % 64]
    else [0xF0 + cp / 262144, 0x80 + (cp / 4096) % 64, 0x80 + (cp / 64) % 64, 0x80 + cp % 64]
  }

  /** `s.encode('utf-8')`. */
  function EncodeUtf8(s: string): seq<Byte>
  {
    if s == [] then [] else Utf8(s[0]) + EncodeUtf8(s[1..])
  }

  /** The bytes `quote` never escapes: ASCII letters, digits and `_.-~`. */
  predicate AlwaysSafe(b: Byte)
  {
    ('A' as int <= b <= 'Z' as int) || ('a' as int <= b <= 'z' as int) || ('0' as int <= b <= '9' as int)
    || b == '_' as int || b == '.' as int || b == '-' as int || b == '~' as int
  }

  /** An upper-case hexadecimal digit, as `quote_plus` writes them. */
  function HexDigit(d: int): (c: char)
    requires 0 <= d < 16
  {
    if d < 10 then ('0' as int + d) as char else ('A' as int + d - 10) as char
  }

  predicate IsHexDigit(c: char)
  {
    ('0' <= c <= '9') || ('A' <= c <= 'F') || ('a' <= c <= 'f')
  }

  function HexValue(c: char): int
  {
    if '0' <= c <= '9' then c as int - '0' as int
    else if 'A' <= c <= 'F' then c as int - 'A' as int + 10
    else if 'a' <= c <= 'f' then c as int - 'a' as int + 10
    else 0
  }

  /** One byte as `quote_plus` writes it: itself when safe, `+` for a space, `%XX` otherwise. */
  function QuoteByte(b: Byte): string
  {
    if AlwaysSafe(b) then [b as char]
    else if b == 0x20 then "+"
    else ['%', HexDigit(b / 16), HexDigit(b % 16)]
  }

  function QuoteBytes(bs: seq<Byte>): string
  {
    if bs == [] then "" else QuoteByte(bs[0]) + QuoteBytes(bs[1..])
  }

  /**
   * `urllib.parse.quote_plus(s)` with its default arguments: only unreserved
   * ASCII characters, `+` and `%` escapes remain.
   */
  function QuotePlus(s: string): (r: string)
    ensures forall i :: 0 <= i < |r| ==> QuotedChar(r[i])
  {
    QuoteBytesChars(EncodeUtf8(s));
    QuoteBytes(EncodeUtf8(s))
  }

  /** `unquote_to_bytes` after `+` is read as a space: the decoding half of `quote_plus`. */
  function UnquotePlusBytes(s: string): seq<Byte>
  {
    if s == [] then []
    else if s[0] == '+' then [0x20] + UnquotePlusBytes(s[1..])
    else if s[0] == '%' && |s| >= 3 && IsHexDigit(s[1]) && IsHexDigit(s[2]) then
      [16 * HexValue(s[1]) + HexValue(s[2])] + UnquotePlusBytes(s[3..])
    else Utf8(s[0]) + UnquotePlusBytes(s[1..])
  }

  lemma HexDigitValue(d: int)
    requires 0 <= d < 16
    ensures IsHexDigit(HexDigit(d)) && HexValue(HexDigit(d)) == d
  {
  }

  lemma UnquotePercent(b: Byte, rest: string)
    ensures UnquotePlusBytes(['%', HexDigit(b / 16), HexDigit(b % 16)] + rest) == [b] + UnquotePlusBytes(rest)
  {
    var q := ['%', HexDigit(b / 16), HexDigit(b % 16)];
    assert (q + rest)[3..] == rest;
    HexDigitValue(b / 16);
    HexDigitValue(b % 16);
  }

  lemma UnquoteQuotedByte(b: Byte, rest: string)
    ensures UnquotePlusBytes(QuoteByte(b) + rest) == [b] + UnquotePlusBytes(rest)
  {
    if !AlwaysSafe(b) && b != 0x20 {
      UnquotePercent(b, rest);
    } else {
      var q := QuoteByte(b);
      assert (q + rest)[1..] == rest;
    }
  }

  /** Decoding reads back exactly the bytes that were quoted. */
  lemma {:induction false} QuoteBytesRoundTrip(bs: seq<Byte>)
    ensures UnquotePlusBytes(QuoteBytes(bs)) == bs
  {
    if bs != [] {
      UnquoteQuotedByte(bs[0], QuoteBytes(bs[1..]));
      QuoteBytesRoundTrip(bs[1..]);
    }
  }

  /** The quoted keyword decodes to the keyword's UTF-8 bytes. */
  lemma QuotePlusRoundTrip(s: string)
    ensures UnquotePlusBytes(QuotePlus(s)) == EncodeUtf8(s)
  {
    QuoteBytesRoundTrip(EncodeUtf8(s));
  }

  /** Characters that may appear in quoted text: none of them is `&`, `=`, `?`, `#` or a space. */
  predicate QuotedChar(c: char)
  {
    c as int < 128 && (AlwaysSafe(c as int) || c == '+' || c == '%')
  }

  lemma {:induction false} QuoteBytesChars(bs: seq<Byte>)
    ensures forall i :: 0 <= i < |QuoteBytes(bs)| ==> QuotedChar(QuoteBytes(bs)[i])
  {
    if bs != [] {
      QuoteBytesChars(bs[1..]);
      var q := QuoteByte(bs[0]);
      var r := QuoteBytes(bs[1..]);
      forall i | 0 <= i < |q + r| ensures QuotedChar((q + r)[i]) {
        if i >= |q| {
          assert (q + r)[i] == r[i - |q|];
        }
      }
    }
  }

  lemma QuotePlusNoAmpersand(s: string)
    ensures '&' !in QuotePlus(s)
  {
    QuoteBytesChars(EncodeUtf8(s));
  }

  // ---------------------------------------------------------------------
  // _build_search_url

  /** The value of the `start` parameter for a page. */
  function StartOffset(page: int): int
  {
    (page - 1) * PageSize + 1
  }

  /** The query parameters in their fixed order; only the keyword is quoted. */
  function SearchParams(keyword: string, page: int): seq<string>
  {
    ["where=news", "sm=tab_jum", "query=" + QuotePlus(keyword), "sort=0", "pd=-1",
     "start=" + IntToStr(StartOffset(page)), "nso=so:r,p:all,a:all"]
  }

  /** `_build_search_url(keyword, page)`. */
  function BuildSearchUrl(keyword: string, page: int): string
  {
    BaseUrl + "?" + JoinWith(SearchParams(keyword, page), '&')
  }

  /**
   * The query string splits at `&` back into the seven parameters in
   * order: the keyword decodes to its UTF-8 bytes and `start` reads back as
   * `(page - 1) * 10 + 1`.
   */
  lemma SearchUrlParams(keyword: string, page: int)
    requires page >= 1
    ensures var parts := Split(JoinWith(SearchParams(keyword, page), '&'), '&');
            && parts == SearchParams(keyword, page)
            && |parts| == 7
            && parts[2][..6] == "query=" && UnquotePlusBytes(parts[2][6..]) == EncodeUtf8(keyword)
            && parts[5][..6] == "start=" && AllDigits(parts[5][6..]) && ParseNat(parts[5][6..]) == (page - 1) * 10 + 1
  {
    var ps := SearchParams(keyword, page);
    QuotePlusNoAmpersand(keyword);
    forall i | 0 <= i < |ps| ensures '&' !in ps[i] {
      if i == 5 {
        var n := IntToStr(StartOffset(page));
        assert forall k :: 0 <= k < |n| ==> n[k] != '&';
      }
    }
    SplitJoin(ps, '&');
    assert ps[2][6..] == QuotePlus(keyword);
    QuotePlusRoundTrip(keyword);
    assert ps[5][6..] == NatToStr(StartOffset(page));
    NatToStrRoundTrip(StartOffset(page));
  }

  // ---------------------------------------------------------------------
  // crawl_keyword

  /** What the extractors read from one news item; a missing link is `""`. */
  datatype Candidate = Candidate(title: string, url: string, source: string, date: string, content: string)

  /** A fetched result page: its status and news items, or an exception raised fetching or parsing it. */
  datatype Page = Fetched(status: int, items: seq<Candidate>) | Failed(message: string)

  /** One collected article. */
  datatype NewsItem = NewsItem(title: string, url: string, source: string, date: string, content: string, keyword: string)

  /** `if title and url`. */
  predicate Usable(c: Candidate)
  {
    c.title != "" && c.url != ""
  }

  function ItemOf(c: Candidate, keyword: string): NewsItem
  {
    NewsItem(c.title, c.url, c.source, c.date, c.content, keyword)
  }

  predicate ValidItem(n: NewsItem, keyword: string)
  {
    n.title != "" && n.url != "" && n.keyword == keyword
  }

  /** The `for item in items` loop: usable items in page order until `max_news` are held. */
  function TakeUsable(items: seq<Candidate>, keyword: string, maxNews: int, acc: seq<NewsItem>): (r: seq<NewsItem>)
    decreases |items|
  {
    if items == [] then acc
    else if |acc| >= maxNews then acc
    else TakeUsable(items[1..], keyword, maxNews, if Usable(items[0]) then acc + [ItemOf(items[0], keyword)] else acc)
  }

  /** The items taken from one page extend what was held, never past `max_news`, and all are valid. */
  lemma {:induction false} TakeUsableBounds(items: seq<Candidate>, keyword: string, maxNews: int, acc: seq<NewsItem>)
    ensures var r := TakeUsable(items, keyword, maxNews, acc);
            && acc <= r
            && |r| <= (if |acc| >= maxNews then |acc| else maxNews)
            && forall i :: |acc| <= i < |r| ==> ValidItem(r[i], keyword)
    decreases |items|
  {
    if items != [] && |acc| < maxNews {
      var next := if Usable(items[0]) then acc + [ItemOf(items[0], keyword)] else acc;
      TakeUsableBounds(items[1..], keyword, maxNews, next);
    }
  }

  /** What a crawl leaves: the articles, and how many pages (1, 2, ...) were requested. */
  datatype CrawlRun = CrawlRun(items: seq<NewsItem>, pages: nat)

  /**
   * The `while` loop of `crawl_keyword` from page `page` on, holding `acc`:
   * it stops without a request once `max_news` articles are held, and never
   * requests a page past the last.
   */
  function Crawl(fetch: (string, nat) -> Page, keyword: string, maxNews: int, page: nat, acc: seq<NewsItem>): (r: CrawlRun)
    requires 1 <= page <= MaxPage
    ensures page - 1 <= r.pages <= MaxPage
    ensures |acc| >= maxNews <==> r.pages == page - 1
    decreases MaxPage - page
  {
    if |acc| >= maxNews then CrawlRun(acc, page - 1)
    else
      match fetch(keyword, page)
      case Failed(_) => CrawlRun(acc, page)
      case Fetched(status, items) =>
        if status != 200 || items == [] then CrawlRun(acc, page)
        else
          var taken := TakeUsable(items, keyword, maxNews, acc);
          if |items| < PageSize || page + 1 > MaxPage then CrawlRun(taken, page)
          else Crawl(fetch, keyword, maxNews, page + 1, taken)
  }

  /** A page the crawl went past was a full page of a successful response. */
  predicate FullPage(p: Page)
  {
    p.Fetched? && p.status == 200 && |p.items| >= PageSize
  }

  lemma {:induction false} CrawlFrom(fetch: (string, nat) -> Page, keyword: string, maxNews: int, page: nat, acc: seq<NewsItem>)
    requires 1 <= page <= MaxPage
    ensures var run := Crawl(fetch, keyword, maxNews, page, acc);
            && acc <= run.items
            && |run.items| <= (if |acc| >= maxNews then |acc| else maxNews)
            && (forall i :: |acc| <= i < |run.items| ==> ValidItem(run.items[i], keyword))
            && page - 1 <= run.pages <= MaxPage
            && (|acc| >= maxNews <==> run.pages == page - 1)
            && forall p :: page <= p < run.pages ==> FullPage(fetch(keyword, p))
    decreases MaxPage - page
  {
    if |acc| < maxNews {
      match fetch(keyword, page)
      case Failed(_) =>
      case Fetched(status, items) =>
        if status == 200 && items != [] {
          var taken := TakeUsable(items, keyword, maxNews, acc);
          TakeUsableBounds(items, keyword, maxNews, acc);
          if !(|items| < PageSize || page + 1 > MaxPage) {
            CrawlFrom(fetch, keyword, maxNews, page + 1, taken);
          }
        }
    }
  }

  /**
   * A crawl of one keyword: at most `max_news` articles (none when
   * `max_news <= 0`), each with a title, a link and the keyword; only pages
   * 1 to 20 are requested, and every page but the last one requested was a
   * full page of a successful response.
   */
  lemma CrawlKeywordBounds(fetch: (string, nat) -> Page, keyword: string, maxNews: int)
    ensures var run := Crawl(fetch, keyword, maxNews, 1, []);
            && |run.items| <= (if maxNews <= 0 then 0 else maxNews)
            && (maxNews <= 0 ==> run == CrawlRun([], 0))
            && (forall n :: n in run.items ==> ValidItem(n, keyword))
            && run.pages <= MaxPage
            && (maxNews > 0 ==> run.pages >= 1)
            && forall p :: 1 <= p < run.pages ==> FullPage(fetch(keyword, p))
  {
    CrawlFrom(fetch, keyword, maxNews, 1, []);
  }

  /**
   * The crawl depends only on the pages it requested: two oracles that
   * agree on those pages give the same crawl.
   */
  lemma {:induction false} CrawlDependsOnRequestedPages(f: (string, nat) -> Page, g: (string, nat) -> Page, keyword: string, maxNews: int, page: nat, acc: seq<NewsItem>)
    requires 1 <= page <= MaxPage
    requires forall p :: page <= p <= Crawl(f, keyword, maxNews, page, acc).pages ==> f(keyword, p) == g(keyword, p)
    ensures Crawl(f, keyword, maxNews, page, acc) == Crawl(g, keyword, maxNews, page, acc)
    decreases MaxPage - page
  {
    if |acc| < maxNews {
      CrawlFrom(f, keyword, maxNews, page, acc);
      assert f(keyword, page) == g(keyword, page);
      match f(keyword, page)
      case Failed(_) =>
      case Fetched(status, items) =>
        if status == 200 && items != [] && !(|items| < PageSize || page + 1 > MaxPage) {
          CrawlDependsOnRequestedPages(f, g, keyword, maxNews, page + 1, TakeUsable(items, keyword, maxNews, acc));
        }
    }
  }

  /** The `for item in items` loop of `crawl_keyword`, appending to `newsItems`. */
  method TakeFromPage(items: seq<Candidate>, keyword: string, maxNews: int, newsItems: seq<NewsItem>)
    returns (r: seq<NewsItem>)
    ensures r == TakeUsable(items, keyword, maxNews, newsItems)
  {
    r := newsItems;
    var j := 0;
    while j < |items|
      invariant 0 <= j <= |items|
      invariant TakeUsable(items[j..], keyword, maxNews, r) == TakeUsable(items, keyword, maxNews, newsItems)
    {
      if |r| >= maxNews {
        break;
      }
      var item := items[j];
      assert items[j..][1..] == items[j + 1..];
      if Usable(item) {
        r := r + [ItemOf(item, keyword)];
      }
      j := j + 1;
    }
  }

  /**
   * One round of the `while` loop of `crawl_keyword`: fetch page `page`,
   * take its usable items, and say whether the loop goes on to the next page.
   */
  method CrawlPage(fetch: (string, nat) -> Page, keyword: string, maxNews: int, page: nat, newsItems: seq<NewsItem>)
    returns (taken: seq<NewsItem>, more: bool)
    requires 1 <= page <= MaxPage && |newsItems| < maxNews
    ensures more ==> page + 1 <= MaxPage && Crawl(fetch, keyword, maxNews, page, newsItems) == Crawl(fetch, keyword, maxNews, page + 1, taken)
    ensures !more ==> Crawl(fetch, keyword, maxNews, page, newsItems) == CrawlRun(taken, page)
  {
    var response := fetch(keyword, page);
    if response.Failed? || response.status != 200 {
      return newsItems, false;
    }
    var items := response.items;
    if items == [] {
      return newsItems, false;
    }
    taken := TakeFromPage(items, keyword, maxNews, newsItems);
    more := |items| >= PageSize && page + 1 <= MaxPage;
  }

  /**
   * `crawl_keyword`. Besides the articles it yields the pages it requested,
   * in order; page `p` is requested at `BuildSearchUrl(keyword, p)`.
   */
  method CrawlKeyword(fetch: (string, nat) -> Page, keyword: string, maxNews: int)
    returns (newsItems: seq<NewsItem>, requested: seq<nat>)
    ensures newsItems == Crawl(fetch, keyword, maxNews, 1, []).items
    ensures |requested| == Crawl(fetch, keyword, maxNews, 1, []).pages
    ensures forall i :: 0 <= i < |requested| ==> requested[i] == i + 1
  {
    ghost var run := Crawl(fetch, keyword, maxNews, 1, []);
    newsItems := [];
    requested := [];
    var page := 1;
    while |newsItems| < maxNews
      invariant 1 <= page <= MaxPage
      invariant |requested| == page - 1 && forall i :: 0 <= i < |requested| ==> requested[i] == i + 1
      invariant Crawl(fetch, keyword, maxNews, page, newsItems) == run
      decreases MaxPage - page
    {
      requested := requested + [page];
      var more;
      newsItems, more := CrawlPage(fetch, keyword, maxNews, page, newsItems);
      if !more {
        break;
      }
      page := page + 1;
    }
  }

  // ---------------------------------------------------------------------
  // crawl_keywords

  /**
   * The articles of the keywords whose crawl did not raise, in keyword
   * order; when every crawl raised, there are none.
   */
  function CrawlAll(fetch: (string, nat) -> Page, fault: string -> Option<string>, keywords: seq<string>, maxNews: int): (r: seq<NewsItem>)
    ensures (forall i :: 0 <= i < |keywords| ==> fault(keywords[i]).Some?) ==> r == []
  {
    if keywords == [] then []
    else
      var last := keywords[|keywords| - 1];
      CrawlAll(fetch, fault, keywords[..|keywords| - 1], maxNews)
        + (if fault(last).None? then Crawl(fetch, last, maxNews, 1, []).items else [])
  }

  lemma {:induction false} CrawlAllLength(fetch: (string, nat) -> Page, fault: string -> Option<string>, keywords: seq<string>, maxNews: int)
    ensures |CrawlAll(fetch, fault, keywords, maxNews)| <= |keywords| * (if maxNews <= 0 then 0 else maxNews)
  {
    if keywords != [] {
      var init := keywords[..|keywords| - 1];
      var m := if maxNews <= 0 then 0 else maxNews;
      CrawlAllLength(fetch, fault, init, maxNews);
      CrawlKeywordBounds(fetch, keywords[|keywords| - 1], maxNews);
      MulSucc(|init|, m);
    }
  }

  lemma MulSucc(a: nat, m: int)
    ensures (a + 1) * m == a * m + m
  {
  }

  lemma {:induction false} CrawlAllMembers(fetch: (string, nat) -> Page, fault: string -> Option<string>, keywords: seq<string>, maxNews: int)
    ensures forall n :: n in CrawlAll(fetch, fault, keywords, maxNews) ==>
              n.keyword in keywords && fault(n.keyword).None? && ValidItem(n, n.keyword)
  {
    if keywords != [] {
      var init := keywords[..|keywords| - 1];
      CrawlAllMembers(fetch, fault, init, maxNews);
      CrawlKeywordBounds(fetch, keywords[|keywords| - 1], maxNews);
      assert forall k :: k in init ==> k in keywords;
    }
  }

  /** Every collected article belongs to one of the keywords, and each keyword contributes at most `max_news`. */
  lemma CrawlAllBounds(fetch: (string, nat) -> Page, fault: string -> Option<string>, keywords: seq<string>, maxNews: int)
    ensures var all := CrawlAll(fetch, fault, keywords, maxNews);
            && |all| <= |keywords| * (if maxNews <= 0 then 0 else maxNews)
            && forall n :: n in all ==> n.keyword in keywords && fault(n.keyword).None? && ValidItem(n, n.keyword)
  {
    CrawlAllLength(fetch, fault, keywords, maxNews);
    CrawlAllMembers(fetch, fault, keywords, maxNews);
  }

  /**
   * `crawl_keywords`. `fault(k)` is the text of an exception raised while
   * crawling `k`, if one is.
   */
  method CrawlKeywords(fetch: (string, nat) -> Page, fault: string -> Option<string>, keywords: seq<string>, maxNews: int)
    returns (allNewsItems: seq<NewsItem>, errors: map<string, string>)
    ensures allNewsItems == CrawlAll(fetch, fault, keywords, maxNews)
    ensures errors.Keys == set k | k in keywords && fault(k).Some?
    ensures forall k :: k in errors ==> errors[k] == fault(k).value
  {
    allNewsItems := [];
    errors := map[];
    var i := 0;
    while i < |keywords|
      invariant 0 <= i <= |keywords|
      invariant allNewsItems == CrawlAll(fetch, fault, keywords[..i], maxNews)
      invariant errors.Keys == set k | k in keywords[..i] && fault(k).Some?
      invariant forall k :: k in errors ==> fault(k).Some? && errors[k] == fault(k).value
    {
      var keyword := keywords[i];
      assert keywords[..i + 1][..i] == keywords[..i];
      match fault(keyword) {
        case Some(message) =>
          errors := errors[keyword := message];
        case None =>
          var newsItems, _ := CrawlKeyword(fetch, keyword, maxNews);
          allNewsItems := allNewsItems + newsItems;
      }
      i := i + 1;
    }
    assert keywords[..i] == keywords;
  }

  // ---------------------------------------------------------------------
  // save_results

  /** The field names of a saved article, in the order of its dictionary. */
  const NewsColumns: seq<string> := ["title", "url", "source", "date", "content", "keyword"]

  function RowOf(n: NewsItem): Row
  {
    map["title" := n.title, "url" := n.url, "source" := n.source, "date" := n.date, "content" := n.content, "keyword" := n.keyword]
  }

  function NewsTable(items: seq<NewsItem>): Table
  {
    Table(NewsColumns, seq(|items|, i requires 0 <= i < |items| => RowOf(items[i])))
  }

  /** Every article row holds exactly the six columns, so the table can be written. */
  lemma NewsTableWritable(items: seq<NewsItem>)
    ensures Writable(NewsTable(items)) && HeaderOfFirst(NewsTable(items))
    ensures |NewsTable(items).rows| == |items|
  {
  }

  /** `None`, `(path, copy or None)`, or `(None, None)`. */
  datatype SaveResultsOutcome = NothingToSave | SavedTo(path: string, copy: Option<string>) | NotSaved

  /** `naver_news_<timestamp>.csv` in the results folder. */
  function ResultsFile(resultsPath: string, timestamp: string): string
  {
    Paths.Join(resultsPath, "naver_news_" + timestamp + ".csv")
  }

  /**
   * `save_results`. The clock reading is the parameter `timestamp`; the
   * settings are `resultsPath`, `autoCopy` and `downloadPath`.
   */
  method SaveResults(disk: Disk, newsItems: seq<NewsItem>, timestamp: string, resultsPath: string,
                     autoCopy: bool, downloadPath: Option<string>, writeFails: bool, copyFails: bool)
    returns (r: SaveResultsOutcome)
    modifies disk
    ensures newsItems == [] ==> r == NothingToSave && disk.files == old(disk.files)
    ensures newsItems != [] && writeFails ==> r == NotSaved && disk.files == old(disk.files)
    ensures newsItems != [] && !writeFails ==>
              var path := ResultsFile(resultsPath, timestamp);
              var content := Written(NewsTable(newsItems));
              if autoCopy && downloadPath.Some? && downloadPath.value != "" && !copyFails then
                var copy := Paths.Join(downloadPath.value, Paths.Basename(path));
                r == SavedTo(path, Some(copy)) && disk.files == old(disk.files)[path := content][copy := content]
              else
                r == SavedTo(path, None) && disk.files == old(disk.files)[path := content]
  {
    if newsItems == [] {
      return NothingToSave;
    }
    var path := ResultsFile(resultsPath, timestamp);
    NewsTableWritable(newsItems);
    var saved := SaveToCsv(disk, NewsTable(newsItems), path, autoCopy, downloadPath, writeFails, copyFails);
    match saved
    case Saved(copy) => r := SavedTo(path, copy);
    case _ => r := NotSaved;
  }
}

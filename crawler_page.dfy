/**
 * The crawl page: the keyword list the user builds (typed, picked from a
 * recommended category, or loaded from the saved list), the saved list,
 * and the validation before a crawl is requested.
 */
module CrawlerPage {
  import opened Wrappers
  import opened Text
  import opened Helpers

  /** The recommended keyword categories. */
  const KeywordCategories: seq<(string, seq<string>)> := [
    ("화장품", ["코스맥스", "코스맥스엔비티", "콜마", "HK이노엔", "아모레퍼시픽", "LG생활건강", "올리브영", "화장품", "뷰티"]),
    ("건강기능식품", ["건강기능식품", "펫푸드", "마이크로바이옴", "식품의약품안전처"])]

  /**
   * `categories.find(item => item.name === name)`: the keywords of the first
   * category of that name, if any.
   */
  function FindCategory(categories: seq<(string, seq<string>)>, name: string): (r: Option<seq<string>>)
    ensures r.None? <==> forall i :: 0 <= i < |categories| ==> categories[i].0 != name
    ensures r.Some? ==> exists i :: 0 <= i < |categories| && categories[i] == (name, r.value) &&
                                    forall j :: 0 <= j < i ==> categories[j].0 != name
  {
    if categories == [] then None
    else if categories[0].0 == name then Some(categories[0].1)
    else
      var r := FindCategory(categories[1..], name);
      assert forall i :: 1 <= i < |categories| ==> categories[i] == categories[1..][i - 1];
      r
  }

  /** `copy.splice(index, 1)` on a copy: a negative index counts from the end; past the end nothing is removed. */
  function SpliceOne(s: seq<string>, index: int): (r: seq<string>)
    ensures 0 <= index < |s| ==> r == s[..index] + s[index + 1..]
    ensures index >= |s| ==> r == s
    ensures -|s| <= index < 0 ==> r == s[..|s| + index] + s[|s| + index + 1..]
    ensures index < -|s| ==> r == if s == [] then s else s[1..]
  {
    var start := if index < 0 then (if |s| + index < 0 then 0 else |s| + index) else index;
    if start < |s| then s[..start] + s[start + 1..] else s
  }

  /** A list `removeDuplicates` leaves as it is: trimmed, non-empty values, none twice. */
  predicate Clean(keywords: seq<string>)
  {
    NoDuplicates(keywords) && forall i :: 0 <= i < |keywords| ==> keywords[i] != "" && JsTrim(keywords[i]) == keywords[i]
  }

  lemma {:induction false} DedupAppend(s: seq<string>, x: string)
    requires NoDuplicates(s)
    ensures Dedup(s + [x]) == if x in s then s else s + [x]
  {
    DedupDistinct(s);
    assert (s + [x])[..|s|] == s;
  }

  lemma CleanAppendTrimmed(keywords: seq<string>, k: string)
    requires Clean(keywords) && JsTrim(k) == k
    ensures TrimAll(keywords + [k]) == keywords + [k]
  {
    var s := keywords + [k];
    forall i | 0 <= i < |s| ensures JsTrim(s[i]) == s[i] {
      if i < |keywords| {
        assert s[i] == keywords[i];
      }
    }
    TrimAllTrimmed(s);
  }

  lemma CleanAppendNonEmpty(keywords: seq<string>, k: string)
    requires Clean(keywords) && k != ""
    ensures var d := if k in keywords then keywords else keywords + [k]; DropEmpty(d) == d
  {
    var d := if k in keywords then keywords else keywords + [k];
    forall i | 0 <= i < |d| ensures d[i] != "" {
      if i < |keywords| {
        assert d[i] == keywords[i];
      }
    }
    DropEmptyNone(d);
  }

  /**
   * Adding a typed keyword to a clean list appends its trimmed form when it
   * is new and leaves the list as it is otherwise.
   */
  lemma AddToCleanList(keywords: seq<string>, typed: string)
    requires Clean(keywords) && JsTrim(typed) != ""
    ensures var k := JsTrim(typed);
            RemoveDuplicates(keywords + [k]) == if k in keywords then keywords else keywords + [k]
  {
    var k := JsTrim(typed);
    JsTrimIdempotent(typed);
    CleanAppendTrimmed(keywords, k);
    DedupAppend(keywords, k);
    CleanAppendNonEmpty(keywords, k);
  }

  /** Merging two lists keeps every non-blank keyword of either, trimmed, and nothing else. */
  lemma MergeKeepsBoth(a: seq<string>, b: seq<string>)
    ensures forall x :: x in RemoveDuplicates(a + b) <==> x != "" && (x in TrimAll(a) || x in TrimAll(b))
  {
    RemoveDuplicatesMembers(a + b);
    var t := TrimAll(a + b);
    assert t == TrimAll(a) + TrimAll(b);
    forall x ensures x in RemoveDuplicates(a + b) <==> x != "" && x in t {
      if x in t {
        var i :| 0 <= i < |t| && t[i] == x;
        assert JsTrim((a + b)[i]) == x;
      }
    }
  }

  /** The local-storage keys of the page. */
  const SavedKeywordsKey: string := "savedKeywords"
  const LastKeywordsKey: string := "lastKeywords"
  const LastMaxNewsKey: string := "lastMaxNews"

  const SavedAlert: Alert := Alert(true, "success", "키워드가 저장되었습니다.")
  const NoKeywordAlert: Alert := Alert(true, "error", "최소 1개 이상의 키워드를 입력해주세요.")

  class CrawlerPageState {
    var keywords: seq<string>
    var newKeyword: string
    var maxNewsPerKeyword: int
    var selectedCategory: string
    var alert: Alert
    var savedKeywords: seq<string>
    var loading: bool
    /** The browser's local storage. */
    var storage: map<string, Stored>
    /** The crawl requests sent: `(keywords, max news per keyword)`. */
    var requests: seq<(seq<string>, int)>

    constructor(storage: map<string, Stored>)
      ensures this.storage == storage && keywords == [] && newKeyword == "" && savedKeywords == []
      ensures maxNewsPerKeyword == 50 && selectedCategory == "" && !alert.open && !loading && requests == []
    {
      this.storage := storage;
      keywords := [];
      newKeyword := "";
      maxNewsPerKeyword := 50;
      selectedCategory := "";
      alert := Alert(false, "info", "");
      savedKeywords := [];
      loading := false;
      requests := [];
    }

    /** `handleAddKeyword`. */
    method HandleAddKeyword()
      modifies this
      ensures JsTrim(old(newKeyword)) == "" ==> unchanged(this`keywords, this`newKeyword)
      ensures JsTrim(old(newKeyword)) != "" ==>
                keywords == RemoveDuplicates(old(keywords) + [JsTrim(old(newKeyword))]) && newKeyword == ""
      ensures unchanged(this`savedKeywords, this`storage, this`requests)
      ensures unchanged(this`selectedCategory, this`alert, this`maxNewsPerKeyword, this`loading)
    {
      if JsTrim(newKeyword) == "" {
        return;
      }
      var updatedKeywords := keywords + [JsTrim(newKeyword)];
      keywords := RemoveDuplicates(updatedKeywords);
      newKeyword := "";
    }

    /** `handleDeleteKeyword(index)`. */
    method HandleDeleteKeyword(index: int)
      modifies this
      ensures keywords == SpliceOne(old(keywords), index)
      ensures 0 <= index < |old(keywords)| ==> keywords == old(keywords)[..index] + old(keywords)[index + 1..]
      ensures unchanged(this`newKeyword, this`savedKeywords, this`storage)
      ensures unchanged(this`requests, this`alert, this`maxNewsPerKeyword, this`selectedCategory, this`loading)
    {
      keywords := SpliceOne(keywords, index);
    }

    /** `handleCategorySelect` with the chosen category's name. */
    method HandleCategorySelect(category: string)
      modifies this
      ensures selectedCategory == category
      ensures category == "" || FindCategory(KeywordCategories, category).None? ==> unchanged(this`keywords)
      ensures category != "" && FindCategory(KeywordCategories, category).Some? ==>
                keywords == RemoveDuplicates(old(keywords) + FindCategory(KeywordCategories, category).value)
      ensures unchanged(this`newKeyword, this`savedKeywords, this`storage)
      ensures unchanged(this`requests, this`alert, this`maxNewsPerKeyword, this`loading)
    {
      selectedCategory := category;
      if category != "" {
        var categoryItem := FindCategory(KeywordCategories, category);
        if categoryItem.Some? {
          keywords := RemoveDuplicates(keywords + categoryItem.value);
        }
      }
    }

    /** `handleSaveKeywords`. */
    method HandleSaveKeywords()
      modifies this
      ensures old(keywords) == [] ==> unchanged(this`savedKeywords, this`storage, this`alert)
      ensures old(keywords) != [] ==>
                && savedKeywords == RemoveDuplicates(old(savedKeywords) + old(keywords))
                && storage == old(storage)[SavedKeywordsKey := StoredList(savedKeywords)]
                && alert == SavedAlert
      ensures unchanged(this`keywords, this`requests, this`newKeyword, this`maxNewsPerKeyword)
      ensures unchanged(this`selectedCategory, this`loading)
    {
      if keywords == [] {
        return;
      }
      var updatedSavedKeywords := RemoveDuplicates(savedKeywords + keywords);
      savedKeywords := updatedSavedKeywords;
      storage := storage[SavedKeywordsKey := StoredList(updatedSavedKeywords)];
      alert := SavedAlert;
    }

    /** `handleLoadSavedKeyword(keyword)`. */
    method HandleLoadSavedKeyword(keyword: string)
      modifies this
      ensures keyword in old(keywords) ==> unchanged(this`keywords)
      ensures keyword !in old(keywords) ==> keywords == old(keywords) + [keyword]
      ensures unchanged(this`savedKeywords, this`storage, this`requests, this`newKeyword, this`maxNewsPerKeyword)
      ensures unchanged(this`selectedCategory, this`alert, this`loading)
    {
      if keyword !in keywords {
        keywords := keywords + [keyword];
      }
    }

    /** The validation and the request of `handleCrawl`; handling the answer is not modelled. */
    method HandleCrawl()
      modifies this
      ensures old(keywords) == [] ==>
                alert == NoKeywordAlert && unchanged(this`storage, this`requests, this`loading)
      ensures old(keywords) != [] ==>
                && storage == old(storage)[LastKeywordsKey := StoredList(keywords)][LastMaxNewsKey := StoredNumber(maxNewsPerKeyword)]
                && loading
                && requests == old(requests) + [(keywords, maxNewsPerKeyword)]
                && alert == old(alert)
      ensures unchanged(this`keywords, this`savedKeywords, this`maxNewsPerKeyword, this`newKeyword, this`selectedCategory)
    {
      if |keywords| == 0 {
        alert := NoKeywordAlert;
        return;
      }
      storage := storage[LastKeywordsKey := StoredList(keywords)];
      storage := storage[LastMaxNewsKey := StoredNumber(maxNewsPerKeyword)];
      loading := true;
      requests := requests + [(keywords, maxNewsPerKeyword)];
    }
  }
}

/**
 * The pure helpers of the frontend: keyword de-duplication, text
 * truncation and the colour of a category.
 */
module Helpers {
  import opened Wrappers
  import opened Text

  // ---------------------------------------------------------------------
  // removeDuplicates

  predicate NoDuplicates(s: seq<string>)
  {
    forall i, j :: 0 <= i < j < |s| ==> s[i] != s[j]
  }

  /** `keywords.map(k => k.trim())`. */
  function TrimAll(keywords: seq<string>): (r: seq<string>)
    ensures |r| == |keywords|
    ensures forall i :: 0 <= i < |keywords| ==> r[i] == JsTrim(keywords[i])
  {
    seq(|keywords|, i requires 0 <= i < |keywords| => JsTrim(keywords[i]))
  }

  /** Values that are already trimmed are left as they are. */
  lemma TrimAllTrimmed(s: seq<string>)
    requires forall i :: 0 <= i < |s| ==> JsTrim(s[i]) == s[i]
    ensures TrimAll(s) == s
  {
  }

  /** `[...new Set(s)]`: each value once, where it first occurs. */
  function Dedup(s: seq<string>): seq<string>
  {
    if s == [] then []
    else
      var d := Dedup(s[..|s| - 1]);
      if s[|s| - 1] in d then d else d + [s[|s| - 1]]
  }

  /** `.filter(k => k !== '')`. */
  function DropEmpty(s: seq<string>): seq<string>
  {
    if s == [] then []
    else DropEmpty(s[..|s| - 1]) + (if s[|s| - 1] != "" then [s[|s| - 1]] else [])
  }

  /** `removeDuplicates(keywords)`: the non-empty trimmed keywords, each once. */
  function RemoveDuplicates(keywords: seq<string>): (r: seq<string>)
    ensures forall x :: x in r <==> x in TrimAll(keywords) && x != ""
  {
    DedupProperties(TrimAll(keywords));
    DropEmptyMembers(Dedup(TrimAll(keywords)));
    DropEmpty(Dedup(TrimAll(keywords)))
  }

  /** The index of the first occurrence of `x`. */
  function FirstIndex(s: seq<string>, x: string): (k: nat)
    requires x in s
    ensures k < |s| && s[k] == x && x !in s[..k]
  {
    if s[0] == x then 0
    else
      assert s == [s[0]] + s[1..];
      var k := 1 + FirstIndex(s[1..], x);
      assert s[..k] == [s[0]] + s[1..][..k - 1];
      k
  }

  lemma FirstIndexAt(s: seq<string>, x: string, k: nat)
    requires k < |s| && s[k] == x && x !in s[..k]
    ensures FirstIndex(s, x) == k
  {
  }

  lemma FirstIndexPrefix(s: seq<string>, n: nat, x: string)
    requires n <= |s| && x in s[..n]
    ensures FirstIndex(s, x) == FirstIndex(s[..n], x)
  {
    var k := FirstIndex(s[..n], x);
    assert s[..n][..k] == s[..k];
    FirstIndexAt(s, x, k);
  }

  /** The de-duplicated values are exactly the values, once each, in first-occurrence order. */
  lemma {:induction false} DedupProperties(s: seq<string>)
    ensures forall x :: x in Dedup(s) <==> x in s
    ensures NoDuplicates(Dedup(s))
    ensures forall i, j :: 0 <= i < j < |Dedup(s)| ==> FirstIndex(s, Dedup(s)[i]) < FirstIndex(s, Dedup(s)[j])
  {
    if s != [] {
      var init := s[..|s| - 1];
      var last := s[|s| - 1];
      DedupProperties(init);
      var d := Dedup(init);
      assert s == init + [last];
      forall x | x in d ensures FirstIndex(s, x) == FirstIndex(init, x) {
        FirstIndexPrefix(s, |s| - 1, x);
      }
      if last !in d {
        FirstIndexAt(s, last, |s| - 1);
        var e := d + [last];
        forall i, j | 0 <= i < j < |e| ensures FirstIndex(s, e[i]) < FirstIndex(s, e[j]) {
          assert e[i] == d[i];
          if j < |d| {
            assert e[j] == d[j];
          }
        }
      }
    }
  }

  /** Without repeated values, de-duplication changes nothing. */
  lemma {:induction false} DedupDistinct(s: seq<string>)
    requires NoDuplicates(s)
    ensures Dedup(s) == s
  {
    if s != [] {
      var init := s[..|s| - 1];
      DedupDistinct(init);
      DedupProperties(init);
      assert s[|s| - 1] !in init;
      assert s == init + [s[|s| - 1]];
    }
  }

  /** Filtering keeps exactly the non-empty values. */
  lemma {:induction false} DropEmptyMembers(s: seq<string>)
    ensures forall x :: x in DropEmpty(s) <==> x in s && x != ""
  {
    if s != [] {
      DropEmptyMembers(s[..|s| - 1]);
      assert s == s[..|s| - 1] + [s[|s| - 1]];
    }
  }

  /** Without empty values, filtering changes nothing. */
  lemma {:induction false} DropEmptyNone(s: seq<string>)
    requires forall i :: 0 <= i < |s| ==> s[i] != ""
    ensures DropEmpty(s) == s
  {
    if s != [] {
      DropEmptyNone(s[..|s| - 1]);
      assert s == s[..|s| - 1] + [s[|s| - 1]];
    }
  }

  /** Filtering keeps the order of what it keeps: values first met in `t` in order stay in that order. */
  lemma {:induction false} DropEmptyOrder(s: seq<string>, t: seq<string>)
    requires forall i :: 0 <= i < |s| ==> s[i] in t
    requires forall i, j :: 0 <= i < j < |s| ==> FirstIndex(t, s[i]) < FirstIndex(t, s[j])
    ensures forall i :: 0 <= i < |DropEmpty(s)| ==> DropEmpty(s)[i] in t
    ensures forall i, j :: 0 <= i < j < |DropEmpty(s)| ==> FirstIndex(t, DropEmpty(s)[i]) < FirstIndex(t, DropEmpty(s)[j])
  {
    if s != [] {
      var init := s[..|s| - 1];
      var last := s[|s| - 1];
      DropEmptyOrder(init, t);
      DropEmptyMembers(init);
      var d := DropEmpty(init);
      if last != "" {
        var e := d + [last];
        forall i, j | 0 <= i < j < |e| ensures FirstIndex(t, e[i]) < FirstIndex(t, e[j]) {
          assert e[i] == d[i] && e[i] in init;
          if j < |d| {
            assert e[j] == d[j];
          } else {
            var k :| 0 <= k < |init| && init[k] == e[i];
            assert s[k] == e[i];
          }
        }
      }
    }
  }

  /** The result holds no value twice, in the order the trimmed values first occur. */
  lemma RemoveDuplicatesOrder(keywords: seq<string>)
    ensures var r := RemoveDuplicates(keywords); var t := TrimAll(keywords);
            && NoDuplicates(r)
            && forall i, j :: 0 <= i < j < |r| ==> r[i] in t && r[j] in t && FirstIndex(t, r[i]) < FirstIndex(t, r[j])
  {
    var t := TrimAll(keywords);
    var d := Dedup(t);
    DedupProperties(t);
    forall i | 0 <= i < |d| ensures d[i] in t {
      assert d[i] in d;
    }
    DropEmptyOrder(d, t);
  }

  /** The result holds exactly the non-empty trimmed keywords. */
  lemma RemoveDuplicatesMembers(keywords: seq<string>)
    ensures forall x :: x in RemoveDuplicates(keywords) <==> x != "" && exists i :: 0 <= i < |keywords| && JsTrim(keywords[i]) == x
  {
    var t := TrimAll(keywords);
    DedupProperties(t);
    DropEmptyMembers(Dedup(t));
    forall x ensures x in t <==> exists i :: 0 <= i < |keywords| && JsTrim(keywords[i]) == x {
      if x in t {
        var k :| 0 <= k < |t| && t[k] == x;
        assert JsTrim(keywords[k]) == x;
      }
      if exists i :: 0 <= i < |keywords| && JsTrim(keywords[i]) == x {
        var k :| 0 <= k < |keywords| && JsTrim(keywords[k]) == x;
        assert t[k] == x;
      }
    }
  }

  /** Every value of the result is trimmed and non-empty. */
  lemma RemoveDuplicatesTrimmed(keywords: seq<string>)
    ensures forall i :: 0 <= i < |RemoveDuplicates(keywords)| ==>
              RemoveDuplicates(keywords)[i] != "" && JsTrim(RemoveDuplicates(keywords)[i]) == RemoveDuplicates(keywords)[i]
  {
    var r := RemoveDuplicates(keywords);
    RemoveDuplicatesMembers(keywords);
    forall i | 0 <= i < |r| ensures r[i] != "" && JsTrim(r[i]) == r[i] {
      assert r[i] in r;
      var k :| 0 <= k < |keywords| && JsTrim(keywords[k]) == r[i];
      JsTrimIdempotent(keywords[k]);
    }
  }

  /** A de-duplicated list is its own de-duplication. */
  lemma RemoveDuplicatesIdempotent(keywords: seq<string>)
    ensures RemoveDuplicates(RemoveDuplicates(keywords)) == RemoveDuplicates(keywords)
  {
    var r := RemoveDuplicates(keywords);
    RemoveDuplicatesOrder(keywords);
    RemoveDuplicatesTrimmed(keywords);
    assert TrimAll(r) == r;
    DedupDistinct(r);
    DropEmptyNone(r);
  }

  // ---------------------------------------------------------------------
  // truncateText

  /** The end index `text.slice(0, end)` uses: negative values count from the end; the result is clamped. */
  function SliceEnd(length: nat, end: int): (k: nat)
    ensures k <= length
    ensures 0 <= end <= length ==> k == end
  {
    if end < 0 then (if length + end < 0 then 0 else length + end)
    else if end > length then length
    else end
  }

  /** `truncateText(text, maxLength)`; `None` is `null` or `undefined`. */
  function TruncateText(text: Option<string>, maxLength: int): (r: string)
    ensures text.None? || text.value == "" ==> r == ""
    ensures text.Some? && |text.value| <= maxLength ==> r == text.value
    ensures text.Some? && text.value != "" && |text.value| > maxLength ==>
              && |r| >= 3 && r[|r| - 3..] == "..." && r[..|r| - 3] <= text.value
              && (maxLength >= 0 ==> |r| == maxLength + 3)
  {
    match text
    case None => ""
    case Some(t) =>
      if t == "" then ""
      else if |t| <= maxLength then t
      else t[..SliceEnd(|t|, maxLength)] + "..."
  }

  // ---------------------------------------------------------------------
  // getCategoryColor

  const Grey: string := "#757575"

  /** The colours of the four categories. */
  const CategoryColors: map<string, string> := map[
    "자사 언급기사" := "#1976d2",
    "업계 관련기사" := "#388e3c",
    "건강기능식품·펫푸드" := "#f57c00",
    "기타" := Grey]

  /** Properties every plain object inherits from `Object.prototype`, all of them truthy. */
  const PrototypeMembers: set<string> := {
    "constructor", "hasOwnProperty", "isPrototypeOf", "propertyIsEnumerable", "toLocaleString",
    "toString", "valueOf", "__proto__", "__defineGetter__", "__defineSetter__",
    "__lookupGetter__", "__lookupSetter__"}

  /** What `categoryColors[category]` can yield: an own colour string or an inherited member. */
  datatype Lookup = Colour(hex: string) | Inherited(member: string)

  /** Line 49 as written: the object lookup sees inherited members before the `||` fallback. */
  function CategoryColorAsWritten(category: string): (r: Lookup)
    ensures r.Inherited? <==> category !in CategoryColors && category in PrototypeMembers
  {
    if category in CategoryColors then Colour(CategoryColors[category])
    else if category in PrototypeMembers then Inherited(category)
    else Colour(Grey)
  }

  /** The category "constructor" gets the `Object` function instead of the grey fallback. */
  lemma ConstructorCategoryHasNoColour()
    ensures CategoryColorAsWritten("constructor") == Inherited("constructor")
    ensures GetCategoryColor("constructor") == Grey
  {
  }

  /** `getCategoryColor(category)` as intended: the category's colour, grey for anything else. */
  function GetCategoryColor(category: string): (r: string)
    ensures category == "자사 언급기사" ==> r == "#1976d2"
    ensures category == "업계 관련기사" ==> r == "#388e3c"
    ensures category == "건강기능식품·펫푸드" ==> r == "#f57c00"
    ensures category !in {"자사 언급기사", "업계 관련기사", "건강기능식품·펫푸드"} ==> r == Grey
    ensures CategoryColorAsWritten(category).Colour? ==> r == CategoryColorAsWritten(category).hex
  {
    if category in CategoryColors then CategoryColors[category] else Grey
  }

  // ---------------------------------------------------------------------
  // storage

  /** A value `storage.set` (helpers.js:53) keeps in the browser's local storage (as JSON). */
  datatype Stored = StoredList(items: seq<string>) | StoredNumber(n: int) | StoredText(s: string)

  /**
   * The props of the `AlertMessage` component. helpers.js does not define
   * it; it is declared here, next to `Stored`, because the three page
   * modules that show alerts all import this module, so it is defined once.
   */
  datatype Alert = Alert(open: bool, kind: string, message: string)
}

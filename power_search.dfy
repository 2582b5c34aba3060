/** The preference and filter rules of the search dialog: the file-type
    selection with its "all" sentinel, the refinement filters derived from it
    or from the section being viewed, the order-independent cache key, the
    sort order sent to the search hook, the recent-search list, and the
    concatenation of the fetched pages. `localStorage` is a map owned by the
    `Preferences` object. */
module PowerSearch {
  import opened Wrappers
  import opened Seqs
  import opened Text
  import opened StringOrder
  import opened SearchModels
  import UseSearch
  import SearchResultsView

  // ===== constants =====

  const ALL: string := "all"
  const IMAGES: string := "images"

  /** The labels of the file-type buttons, lower-cased as they are passed to
      the click handler. */
  const FILE_TYPE_TAGS: seq<string> := ["all", "docx", "pptx", "xlsx", "pdf", "page", "images"]

  /** `FILE_TYPES.length`. */
  const FILE_TYPES_COUNT: nat := |FILE_TYPE_TAGS|

  /** One entry of `STANDARD_TYPES`: a tag and the extensions it stands for. */
  datatype StandardType = StandardType(tag: string, extensions: seq<string>)

  const STANDARD_TYPES: seq<StandardType> := [
    StandardType("docx", ["docx", "dotx"]),
    StandardType("pptx", ["pptx", "potx", "ppsx"]),
    StandardType("xlsx", ["xlsx", "xltx"]),
    StandardType("pdf", ["pdf"]),
    StandardType("page", ["aspx"])
  ]

  const IMAGE_TYPES: seq<string> := ["jpg", "jpeg", "png", "gif", "bmp", "ico", "tiff", "webp"]

  /** The tags that contribute a filter: images first, then the table's. */
  const KNOWN_TAGS: seq<string> := ["images", "docx", "pptx", "xlsx", "pdf", "page"]

  const FILE_TYPES_KEY: string := "powerSearchFileTypes"
  const SORT_ORDER_KEY: string := "powerSearchSortOrder"
  const HISTORY_KEY: string := "powerSearchHistory"

  const HISTORY_LIMIT: nat := 6

  // ===== refinement filters =====

  /** A refinement filter of the search service's query language, as the
      dialog composes it. */
  datatype FilterExpr =
    | Equals(property: string, value: string)
    | Or(operands: seq<FilterExpr>)
    | Not(operand: FilterExpr)

  /** The filter as the string sent: `P:equals("v")`, `or(a,b,...)`, `not(a)`. */
  function Render(e: FilterExpr): string
    decreases e, 1
  {
    match e
    case Equals(p, v) => p + ":equals(\"" + v + "\")"
    case Or(es) => "or(" + RenderJoined(es) + ")"
    case Not(x) => "not(" + Render(x) + ")"
  }

  /** The operands rendered and joined with ",". */
  function RenderJoined(es: seq<FilterExpr>): string
    decreases es, 0
  {
    if |es| == 0 then ""
    else if |es| == 1 then Render(es[0])
    else Render(es[0]) + "," + RenderJoined(es[1..])
  }

  function RenderEach(es: seq<FilterExpr>): (r: seq<string>)
    ensures |r| == |es|
    ensures forall i :: 0 <= i < |es| ==> r[i] == Render(es[i])
  {
    if |es| == 0 then [] else [Render(es[0])] + RenderEach(es[1..])
  }

  function FileTypeEquals(ext: string): FilterExpr {
    Equals("FileType", ext)
  }

  function FileTypeEqualsAll(exts: seq<string>): (r: seq<FilterExpr>)
    ensures |r| == |exts|
    ensures forall i :: 0 <= i < |exts| ==> r[i] == FileTypeEquals(exts[i])
  {
    if |exts| == 0 then [] else [FileTypeEquals(exts[0])] + FileTypeEqualsAll(exts[1..])
  }

  /** `createTypeFilter`: a disjunction for several extensions, in their
      order, a bare comparison for one. An empty list compares with
      "undefined", as `extensions[0]` would; no table has one. */
  function TypeFilter(exts: seq<string>): FilterExpr {
    if |exts| > 1 then Or(FileTypeEqualsAll(exts))
    else if |exts| == 1 then FileTypeEquals(exts[0])
    else FileTypeEquals("undefined")
  }

  /** The filter one table entry contributes. */
  function EntryFilter(selected: seq<string>, entry: StandardType): seq<FilterExpr> {
    if entry.tag in selected then [TypeFilter(entry.extensions)] else []
  }

  /** The filters of the selected standard types, in table order. */
  function StandardFilters(selected: seq<string>, table: seq<StandardType>): seq<FilterExpr> {
    if |table| == 0 then [] else EntryFilter(selected, table[0]) + StandardFilters(selected, table[1..])
  }

  /** One filter per selected entry of the table: none exactly when no entry
      is selected. */
  lemma {:induction false} StandardFiltersCount(selected: seq<string>, table: seq<StandardType>)
    ensures |StandardFilters(selected, table)| <= |table|
    ensures StandardFilters(selected, table) == [] <==> forall i :: 0 <= i < |table| ==> table[i].tag !in selected
  {
    if |table| > 0 {
      StandardFiltersCount(selected, table[1..]);
      assert forall i :: 1 <= i < |table| ==> table[1..][i - 1] == table[i];
    }
  }

  /** The per-tag predicates: images first, then the standard types. */
  function TagFilters(selected: seq<string>): seq<FilterExpr> {
    (if IMAGES in selected then [TypeFilter(IMAGE_TYPES)] else []) + StandardFilters(selected, STANDARD_TYPES)
  }

  /** `getRefinementFilters` before rendering: nothing when "all" is
      selected, else the per-tag predicates, combined into one disjunction
      when there are several. */
  function RefinementFilterExprs(selected: seq<string>): (r: seq<FilterExpr>)
    ensures ALL in selected ==> r == []
    ensures |r| <= 1
    ensures ALL !in selected && |TagFilters(selected)| > 1 ==> r == [Or(TagFilters(selected))]
    ensures ALL !in selected && |TagFilters(selected)| <= 1 ==> r == TagFilters(selected)
  {
    if ALL in selected then []
    else
      var fs := TagFilters(selected);
      if |fs| > 1 then [Or(fs)] else fs
  }

  /** `getRefinementFilters`. */
  function RefinementFilters(selected: seq<string>): (r: seq<string>)
    ensures ALL in selected ==> r == []
    ensures |r| <= 1
  {
    RenderEach(RefinementFilterExprs(selected))
  }

  /** The list is empty exactly when "all" is selected or no known tag is:
      unknown tags and the empty selection filter nothing. */
  lemma RefinementFiltersEmpty(selected: seq<string>)
    ensures RefinementFilters(selected) == [] <==>
      ALL in selected || forall t :: t in KNOWN_TAGS ==> t !in selected
  {
    var table := STANDARD_TYPES;
    StandardFiltersCount(selected, table);
    assert forall i :: 0 <= i < |table| ==> table[i].tag == KNOWN_TAGS[i + 1];
    if ALL !in selected && RefinementFilters(selected) == [] {
      forall t | t in KNOWN_TAGS ensures t !in selected {
        var k :| 0 <= k < |KNOWN_TAGS| && KNOWN_TAGS[k] == t;
        if k > 0 {
          assert table[k - 1].tag == t;
        }
      }
    }
  }

  /** The filters depend on which tags are selected, not on the order they
      were selected in. */
  lemma {:induction false} StandardFiltersBySet(a: seq<string>, b: seq<string>, table: seq<StandardType>)
    requires forall t :: t in a <==> t in b
    ensures StandardFilters(a, table) == StandardFilters(b, table)
  {
    if |table| > 0 {
      StandardFiltersBySet(a, b, table[1..]);
    }
  }

  lemma RefinementFiltersBySet(a: seq<string>, b: seq<string>)
    requires forall t :: t in a <==> t in b
    ensures RefinementFilters(a) == RefinementFilters(b)
  {
    StandardFiltersBySet(a, b, STANDARD_TYPES);
    assert TagFilters(a) == TagFilters(b);
  }

  /** The filters follow the table's order: a table split in two gives the
      filters of the first part, then those of the second. */
  lemma {:induction false} StandardFiltersAppend(selected: seq<string>, a: seq<StandardType>, b: seq<StandardType>)
    ensures StandardFilters(selected, a + b) == StandardFilters(selected, a) + StandardFilters(selected, b)
  {
    if |a| > 0 {
      StandardFiltersAppend(selected, a[1..], b);
      assert (a + b)[1..] == a[1..] + b;
    } else {
      assert a + b == b;
    }
  }

  /** When only entry `k` of the table is selected, its filter is the only
      one. */
  lemma {:induction false} StandardFiltersOnly(selected: seq<string>, table: seq<StandardType>, k: nat)
    requires k < |table| && table[k].tag in selected
    requires forall i :: 0 <= i < |table| && i != k ==> table[i].tag !in selected
    ensures StandardFilters(selected, table) == [TypeFilter(table[k].extensions)]
  {
    var rest := table[1..];
    if k == 0 {
      StandardFiltersCount(selected, rest);
      assert forall i :: 0 <= i < |rest| ==> rest[i] == table[i + 1];
    } else {
      assert forall i :: 0 <= i < |rest| ==> rest[i] == table[i + 1];
      StandardFiltersOnly(selected, rest, k - 1);
    }
  }

  /** A tag with several extensions gives a disjunction over them in table
      order. */
  lemma DocxFilter()
    ensures RefinementFilterExprs(["docx"]) == [Or([FileTypeEquals("docx"), FileTypeEquals("dotx")])]
  {
    var sel := ["docx"];
    StandardFiltersOnly(sel, STANDARD_TYPES, 0);
    assert FileTypeEqualsAll(["docx", "dotx"]) == [FileTypeEquals("docx"), FileTypeEquals("dotx")];
  }

  /** A tag with one extension gives a bare comparison; "page" stands for
      the extension "aspx". */
  lemma PageFilter()
    ensures RefinementFilterExprs(["page"]) == [FileTypeEquals("aspx")]
  {
    StandardFiltersOnly(["page"], STANDARD_TYPES, 4);
  }

  /** Images come first and the standard types follow in table order,
      whatever order the tags were selected in. */
  lemma PdfAndImagesTags()
    ensures TagFilters(["pdf", "images"]) == [TypeFilter(IMAGE_TYPES), FileTypeEquals("pdf")]
  {
    PdfOnlyStandardType(["pdf", "images"]);
  }

  /** Of the table's entries only "pdf" is selected. */
  lemma PdfOnlyStandardType(sel: seq<string>)
    requires sel == ["pdf", "images"]
    ensures StandardFilters(sel, STANDARD_TYPES) == [FileTypeEquals("pdf")]
  {
    StandardFiltersOnly(sel, STANDARD_TYPES, 3);
  }

  /** Several tags are combined into one disjunction. */
  lemma CombinedTagFilters()
    ensures RefinementFilterExprs(["pdf", "images"]) ==
      [Or([TypeFilter(IMAGE_TYPES), FileTypeEquals("pdf")])]
  {
    PdfAndImagesTags();
  }

  // ===== section views =====

  /** `handleSectionClick`'s filter table; an unknown section has none. The
      filters are over the extensions the results list uses for the same
      sections. */
  function SectionFilterExpr(section: string): (r: Option<FilterExpr>)
    ensures r.None? <==> section !in ["documents", "pages", "other"]
  {
    if section == "documents" then Some(TypeFilter(SearchResultsView.DOCUMENT_TYPES))
    else if section == "pages" then Some(TypeFilter(SearchResultsView.PAGE_TYPES))
    else if section == "other" then
      Some(Not(TypeFilter(SearchResultsView.DOCUMENT_TYPES + SearchResultsView.PAGE_TYPES)))
    else None
  }

  /** The section filter as the list of strings that replaces the type
      filters. */
  function SectionFilter(section: string): (r: seq<string>)
    ensures |r| <= 1
    ensures r == [] <==> section !in ["documents", "pages", "other"]
  {
    match SectionFilterExpr(section)
    case Some(e) => [Render(e)]
    case None => []
  }

  /** The "other" section filters out exactly the extensions of the files and
      pages sections. */
  lemma SectionFiltersComplement()
    ensures SectionFilterExpr("documents") == Some(Or(FileTypeEqualsAll(["docx", "doc", "pdf"])))
    ensures SectionFilterExpr("pages") == Some(Or(FileTypeEqualsAll(["aspx", "page"])))
    ensures SectionFilterExpr("other") ==
      Some(Not(Or(FileTypeEqualsAll(["docx", "doc", "pdf"]) + FileTypeEqualsAll(["aspx", "page"]))))
  {
    FileTypeEqualsAllAppend(["docx", "doc", "pdf"], ["aspx", "page"]);
  }

  lemma FileTypeEqualsAllAppend(a: seq<string>, b: seq<string>)
    ensures FileTypeEqualsAll(a + b) == FileTypeEqualsAll(a) + FileTypeEqualsAll(b)
  {
    var l := FileTypeEqualsAll(a + b);
    var r := FileTypeEqualsAll(a) + FileTypeEqualsAll(b);
    forall i | 0 <= i < |l|
      ensures l[i] == r[i]
    {
      if i >= |a| {
        assert (a + b)[i] == b[i - |a|];
      }
    }
  }

  /** A view is set when `currentView` is a non-empty string. */
  predicate ViewSet(currentView: Option<string>) {
    currentView.Some? && currentView.value != ""
  }

  /** `getAllRefinementFilters`. */
  function AllRefinementFilters(currentView: Option<string>, sectionFilter: seq<string>,
                                selected: seq<string>): seq<string> {
    if ViewSet(currentView) && |sectionFilter| > 0 then sectionFilter else RefinementFilters(selected)
  }

  /** The section filter replaces the type filters only while a view is set
      and the section has a filter; whichever applies, there is at most one
      filter when the section filter is the one of the current view. */
  lemma AllRefinementFiltersCases(currentView: Option<string>, sectionFilter: seq<string>, selected: seq<string>)
    ensures var r := AllRefinementFilters(currentView, sectionFilter, selected);
      && (sectionFilter == [] || (currentView.Some? && sectionFilter == SectionFilter(currentView.value)) ==> |r| <= 1)
      && (ViewSet(currentView) && sectionFilter != [] ==> r == sectionFilter)
      && (!ViewSet(currentView) || sectionFilter == [] ==> r == RefinementFilters(selected))
  {
  }

  /** `refinementKey`: the section filter while a view is set, else the
      selected tags sorted and joined. */
  function RefinementKey(currentView: Option<string>, sectionFilter: seq<string>, selected: seq<string>): string {
    if ViewSet(currentView) then Join(",", sectionFilter) else Join(",", Sort(selected))
  }

  /** Two selections with the same tags give the same key, whatever order the
      tags were added in. */
  lemma RefinementKeyOrderIndependent(currentView: Option<string>, sectionFilter: seq<string>,
                                      a: seq<string>, b: seq<string>)
    requires NoDups(a) && NoDups(b)
    requires forall t :: t in a <==> t in b
    ensures RefinementKey(currentView, sectionFilter, a) == RefinementKey(currentView, sectionFilter, b)
  {
    SameMembersSameMultiset(a, b);
    SortOrderIndependent(a, b);
  }

  // ===== sort order =====

  /** `searchSortOrder`: relevance is sent as "desc". */
  function SearchSortOrder(sortOrder: string): string {
    if sortOrder == UseSearch.RELEVANCE then UseSearch.DESC else sortOrder
  }

  /** The parameters the dialog passes to the search hook. */
  function SearchParamsFor(query: string, filters: seq<string>, startRow: int, sortOrder: string): UseSearch.SearchParams {
    UseSearch.SearchParams(query, Some(filters), Some(startRow), Some("LastModifiedTime"),
      Some(if sortOrder == UseSearch.DESC then UseSearch.DESC else UseSearch.ASC))
  }

  /** As wired, the request's sort list is never empty: it always sorts by
      modification time, newest first unless the order is "asc" (or another
      value that is neither "relevance" nor "desc"); relevance and "desc"
      send the same request. */
  lemma WiredSortList(query: string, filters: seq<string>, startRow: int, sortOrder: string,
                      config: UseSearch.SearchConfig, props: seq<string>, page: int)
    ensures var q := UseSearch.BuildSearchQuery(SearchParamsFor(query, filters, startRow, sortOrder),
                                               SearchSortOrder(sortOrder), config, props, page);
      && |q.SortList| == 1
      && q.SortList[0].Property == "LastModifiedTime"
      && (q.SortList[0].Direction == 1 <==> sortOrder == UseSearch.RELEVANCE || sortOrder == UseSearch.DESC)
    ensures UseSearch.BuildSearchQuery(SearchParamsFor(query, filters, startRow, UseSearch.RELEVANCE),
                                       SearchSortOrder(UseSearch.RELEVANCE), config, props, page)
         == UseSearch.BuildSearchQuery(SearchParamsFor(query, filters, startRow, UseSearch.DESC),
                                       SearchSortOrder(UseSearch.DESC), config, props, page)
  {
  }

  // ===== file-type selection =====

  /** What `handleFileTypeClick` makes of the selection. JavaScript sets keep
      insertion order: `delete` keeps the others in order, `add` appends. */
  function ToggleFileType(selected: seq<string>, fileType: string): seq<string> {
    if fileType == ALL then [ALL]
    else
      var s := Without(selected, ALL);
      if fileType in s then
        var t := Without(s, fileType);
        if |t| == 0 then [ALL] else t
      else
        var t := s + [fileType];
        if |t| == FILE_TYPES_COUNT - 1 then [ALL] else t
  }

  /** A selection as the handler leaves it: a set, never empty, and "all"
      only on its own. */
  predicate WellFormedSelection(s: seq<string>) {
    NoDups(s) && |s| > 0 && (ALL in s ==> s == [ALL])
  }

  lemma ToggleWellFormed(selected: seq<string>, fileType: string)
    requires NoDups(selected)
    ensures WellFormedSelection(ToggleFileType(selected, fileType))
  {
    if fileType != ALL {
      var s := Without(selected, ALL);
      WithoutNoDups(selected, ALL);
      if fileType in s {
        WithoutNoDups(s, fileType);
      }
    }
  }

  /** Clicking "all" selects only "all"; deselecting the last concrete tag
      falls back to "all"; selecting the sixth concrete tag collapses the
      selection to "all". */
  lemma ToggleSentinelRules(selected: seq<string>, fileType: string)
    ensures ToggleFileType(selected, ALL) == [ALL]
    ensures fileType != ALL && (selected == [fileType] || selected == [ALL, fileType] || selected == [fileType, ALL]) ==>
      ToggleFileType(selected, fileType) == [ALL]
    ensures (fileType != ALL && NoDups(selected) && ALL !in selected && fileType !in selected &&
             |selected| == FILE_TYPES_COUNT - 2) ==> ToggleFileType(selected, fileType) == [ALL]
  {
    if fileType != ALL {
      if selected == [fileType] || selected == [ALL, fileType] || selected == [fileType, ALL] {
        assert Without(selected, ALL) == [fileType];
      }
      if ALL !in selected {
        WithoutAbsent(selected, ALL);
      }
    }
  }

  /** Clicking a concrete tag that is not selected, and then again, gives
      back the selection (when it stays below the collapse size and is not
      left empty). */
  lemma ToggleTwiceRestores(selected: seq<string>, fileType: string)
    requires NoDups(selected) && ALL !in selected && |selected| > 0
    requires fileType != ALL && fileType !in selected
    requires |selected| + 1 < FILE_TYPES_COUNT - 1
    ensures ToggleFileType(ToggleFileType(selected, fileType), fileType) == selected
  {
    WithoutAbsent(selected, ALL);
    var s := selected + [fileType];
    assert ToggleFileType(selected, fileType) == s;
    WithoutAbsent(s, ALL);
    WithoutAppend(selected, [fileType], fileType);
    WithoutAbsent(selected, fileType);
    assert Without([fileType], fileType) == [];
  }

  /** The selection after a series of clicks. */
  function ApplyClicks(selected: seq<string>, clicks: seq<string>): seq<string>
    decreases |clicks|
  {
    if |clicks| == 0 then selected else ApplyClicks(ToggleFileType(selected, clicks[0]), clicks[1..])
  }

  /** Selecting distinct concrete tags one after the other accumulates them
      while there are at most five, and collapses to "all" at the sixth. */
  lemma {:induction false} ClicksAccumulate(prefix: seq<string>, rest: seq<string>)
    requires |prefix| > 0 && NoDups(prefix + rest) && ALL !in prefix + rest
    requires |prefix + rest| <= FILE_TYPES_COUNT - 1
    ensures |prefix + rest| < FILE_TYPES_COUNT - 1 ==> ApplyClicks(prefix, rest) == prefix + rest
    ensures |prefix + rest| == FILE_TYPES_COUNT - 1 && |rest| > 0 ==> ApplyClicks(prefix, rest) == [ALL]
    decreases |rest|
  {
    if |rest| > 0 {
      var t := rest[0];
      WithoutAbsent(prefix, ALL);
      forall i | 0 <= i < |prefix|
        ensures prefix[i] != t
      {
        assert (prefix + rest)[i] == prefix[i];
        assert (prefix + rest)[|prefix|] == t;
      }
      var next := prefix + [t];
      assert next + rest[1..] == prefix + rest;
      if |next| < FILE_TYPES_COUNT - 1 {
        assert ToggleFileType(prefix, t) == next;
        ClicksAccumulate(next, rest[1..]);
      } else {
        assert ToggleFileType(prefix, t) == [ALL];
        assert rest[1..] == [];
      }
    }
  }

  /** From "all", clicking distinct concrete tags selects them in click
      order, until the sixth collapses the selection back to "all". */
  lemma ClicksFromAll(p: seq<string>)
    requires |p| > 0 && NoDups(p) && ALL !in p && |p| <= FILE_TYPES_COUNT - 1
    ensures |p| < FILE_TYPES_COUNT - 1 ==> ApplyClicks([ALL], p) == p
    ensures |p| == FILE_TYPES_COUNT - 1 ==> ApplyClicks([ALL], p) == [ALL]
  {
    assert ToggleFileType([ALL], p[0]) == [p[0]];
    assert [p[0]] + p[1..] == p;
    ClicksAccumulate([p[0]], p[1..]);
  }

  /** From "all", clicking the six concrete tags in any order comes back to
      "all", after passing through each partial selection. */
  lemma ClickEveryTagFromAll(tags: seq<string>)
    requires NoDups(tags) && ALL !in tags && |tags| == FILE_TYPES_COUNT - 1
    ensures forall k :: 1 <= k < |tags| ==> ApplyClicks([ALL], tags[..k]) == tags[..k]
    ensures ApplyClicks([ALL], tags) == [ALL]
  {
    forall k | 1 <= k < |tags|
      ensures ApplyClicks([ALL], tags[..k]) == tags[..k]
    {
      ClicksFromAll(tags[..k]);
    }
    ClicksFromAll(tags);
  }

  // ===== recent searches =====

  /** `addToSearchHistory`: a blank query changes nothing; otherwise the query
      comes first, followed by the earlier entries without any copy of it,
      cut to six. */
  function AddToHistory(history: seq<string>, query: string): (r: seq<string>)
    ensures IsBlank(query) ==> r == history
    ensures !IsBlank(query) ==> 1 <= |r| <= HISTORY_LIMIT && r[0] == query && query !in r[1..]
    ensures !IsBlank(query) ==> forall x :: x in r ==> x == query || x in history
  {
    if IsBlank(query) then history
    else
      var r := Take([query] + Without(history, query), HISTORY_LIMIT);
      assert r[1..] == Without(history, query)[..|r| - 1];
      r
  }

  /** The earlier entries keep their order: after the query comes a prefix
      of the history without the query, as long as six entries allow. */
  lemma AddToHistoryKeepsOrder(history: seq<string>, query: string)
    requires !IsBlank(query)
    ensures var r := AddToHistory(history, query);
      var rest := Without(history, query);
      && |r| == (if |rest| + 1 < HISTORY_LIMIT then |rest| + 1 else HISTORY_LIMIT)
      && r[1..] == rest[..|r| - 1]
  {
    var rest := Without(history, query);
    var t := [query] + rest;
    var r := Take(t, HISTORY_LIMIT);
    assert AddToHistory(history, query) == r;
    assert r == t[..|r|];
    assert t[..|r|][1..] == rest[..|r| - 1];
  }

  /** A history without duplicates stays without duplicates. */
  lemma AddToHistoryNoDups(history: seq<string>, query: string)
    requires NoDups(history)
    ensures NoDups(AddToHistory(history, query))
  {
    if !IsBlank(query) {
      var w := Without(history, query);
      WithoutNoDups(history, query);
      TakeNoDups([query] + w, HISTORY_LIMIT);
    }
  }

  /** Searching the same query twice records it once. */
  lemma AddToHistoryIdempotent(history: seq<string>, query: string)
    ensures AddToHistory(AddToHistory(history, query), query) == AddToHistory(history, query)
  {
    if !IsBlank(query) {
      var r := AddToHistory(history, query);
      assert r == [query] + r[1..];
      WithoutAppend([query], r[1..], query);
      WithoutAbsent(r[1..], query);
      assert Without([query], query) == [];
    }
  }

  /** `removeFromSearchHistory`: every copy of the query goes, the others stay
      in order. */
  function RemoveFromHistory(history: seq<string>, query: string): (r: seq<string>)
    ensures query !in r
    ensures forall x :: x != query ==> multiset(r)[x] == multiset(history)[x]
  {
    Without(history, query)
  }

  /** Removal keeps the order of the other entries: it distributes over
      concatenation. */
  lemma RemoveFromHistoryKeepsOrder(a: seq<string>, b: seq<string>, query: string)
    ensures RemoveFromHistory(a + b, query) == RemoveFromHistory(a, query) + RemoveFromHistory(b, query)
  {
    WithoutAppend(a, b, query);
  }

  /** Removing a query just added to a short history that did not hold it
      gives the history back. */
  lemma RemoveUndoesAdd(history: seq<string>, query: string)
    requires !IsBlank(query) && query !in history && |history| < HISTORY_LIMIT
    ensures RemoveFromHistory(AddToHistory(history, query), query) == history
  {
    WithoutAbsent(history, query);
    var r := [query] + history;
    assert AddToHistory(history, query) == r;
    WithoutAppend([query], history, query);
    assert Without([query], query) == [];
  }

  // ===== persisted preferences =====

  /** A value in `localStorage`, as the JSON it holds: a list of strings or
      a string. */
  datatype Stored = StoredList(items: seq<string>) | StoredText(text: string)

  /** `new Set(items)`: the first occurrence of each item, in order. */
  function Dedup(items: seq<string>): (r: seq<string>)
    ensures NoDups(r)
    ensures forall x :: x in r <==> x in items
  {
    if |items| == 0 then []
    else
      var r := Dedup(items[..|items| - 1]);
      assert forall x :: x in items <==> x in items[..|items| - 1] || x == items[|items| - 1];
      if items[|items| - 1] in r then r else r + [items[|items| - 1]]
  }

  lemma {:induction false} DedupOfSet(items: seq<string>)
    requires NoDups(items)
    ensures Dedup(items) == items
  {
    if |items| > 0 {
      DedupOfSet(items[..|items| - 1]);
      assert items[|items| - 1] !in items[..|items| - 1];
      assert items[..|items| - 1] + [items[|items| - 1]] == items;
    }
  }

  /** The initial selection: the saved list as a set, or "all". */
  function LoadSelection(saved: map<string, Stored>): seq<string> {
    if FILE_TYPES_KEY in saved && saved[FILE_TYPES_KEY].StoredList? then Dedup(saved[FILE_TYPES_KEY].items)
    else [ALL]
  }

  /** The initial sort order: the saved one, or relevance. */
  function LoadSortOrder(saved: map<string, Stored>): string {
    if SORT_ORDER_KEY in saved && saved[SORT_ORDER_KEY].StoredText? then saved[SORT_ORDER_KEY].text
    else UseSearch.RELEVANCE
  }

  /** The initial history: the saved list, or none. */
  function LoadHistory(saved: map<string, Stored>): seq<string> {
    if HISTORY_KEY in saved && saved[HISTORY_KEY].StoredList? then saved[HISTORY_KEY].items else []
  }

  /** What the handlers persist reads back as the same preferences. */
  lemma PersistedReloads(saved: map<string, Stored>, selection: seq<string>, sortOrder: string, history: seq<string>)
    requires NoDups(selection)
    ensures LoadSelection(saved[FILE_TYPES_KEY := StoredList(selection)]) == selection
    ensures LoadSortOrder(saved[SORT_ORDER_KEY := StoredText(sortOrder)]) == sortOrder
    ensures LoadHistory(saved[HISTORY_KEY := StoredList(history)]) == history
  {
    DedupOfSet(selection);
  }

  /** The `preferences` state of the dialog and the storage it writes. */
  class Preferences {
    var selectedFileTypes: seq<string>
    var sortOrder: string
    var recentSearches: seq<string>
    var storage: map<string, Stored>

    /** The selection is a set. */
    ghost predicate Valid()
      reads this
    {
      NoDups(selectedFileTypes)
    }

    /** The initial state, read from what was saved. */
    constructor(saved: map<string, Stored>)
      ensures Valid()
      ensures selectedFileTypes == LoadSelection(saved)
      ensures sortOrder == LoadSortOrder(saved)
      ensures recentSearches == LoadHistory(saved)
      ensures storage == saved
    {
      selectedFileTypes := LoadSelection(saved);
      sortOrder := LoadSortOrder(saved);
      recentSearches := LoadHistory(saved);
      storage := saved;
    }

    /** `handleFileTypeClick`: update a copy of the selection and persist it. */
    method HandleFileTypeClick(fileType: string)
      requires Valid()
      modifies this
      ensures Valid() && WellFormedSelection(selectedFileTypes)
      ensures selectedFileTypes == ToggleFileType(old(selectedFileTypes), fileType)
      ensures storage == old(storage)[FILE_TYPES_KEY := StoredList(selectedFileTypes)]
      ensures sortOrder == old(sortOrder) && recentSearches == old(recentSearches)
    {
      ToggleWellFormed(selectedFileTypes, fileType);
      var newSelected := selectedFileTypes;

      if fileType == ALL {
        storage := storage[FILE_TYPES_KEY := StoredList([ALL])];
        selectedFileTypes := [ALL];
        return;
      }

      newSelected := Without(newSelected, ALL);

      if fileType in newSelected {
        newSelected := Without(newSelected, fileType);
        if |newSelected| == 0 {
          newSelected := newSelected + [ALL];
        }
      } else {
        newSelected := newSelected + [fileType];
        if |newSelected| == FILE_TYPES_COUNT - 1 {
          storage := storage[FILE_TYPES_KEY := StoredList([ALL])];
          selectedFileTypes := [ALL];
          return;
        }
      }

      storage := storage[FILE_TYPES_KEY := StoredList(newSelected)];
      selectedFileTypes := newSelected;
    }

    /** `handleSortOrderChange`. */
    method HandleSortOrderChange(newOrder: string)
      modifies this
      ensures sortOrder == newOrder
      ensures storage == old(storage)[SORT_ORDER_KEY := StoredText(newOrder)]
      ensures selectedFileTypes == old(selectedFileTypes) && recentSearches == old(recentSearches)
    {
      storage := storage[SORT_ORDER_KEY := StoredText(newOrder)];
      sortOrder := newOrder;
    }

    /** `addToSearchHistory`: a blank query neither changes nor persists
      anything. */
    method AddToSearchHistory(query: string)
      modifies this
      ensures recentSearches == AddToHistory(old(recentSearches), query)
      ensures IsBlank(query) ==> storage == old(storage)
      ensures !IsBlank(query) ==> storage == old(storage)[HISTORY_KEY := StoredList(recentSearches)]
      ensures selectedFileTypes == old(selectedFileTypes) && sortOrder == old(sortOrder)
    {
      if Trim(query) == "" {
        return;
      }
      var filtered := Without(recentSearches, query);
      var updated := Take([query] + filtered, HISTORY_LIMIT);
      storage := storage[HISTORY_KEY := StoredList(updated)];
      recentSearches := updated;
    }

    /** `removeFromSearchHistory`: always persists the new list. */
    method RemoveFromSearchHistory(query: string)
      modifies this
      ensures recentSearches == RemoveFromHistory(old(recentSearches), query)
      ensures storage == old(storage)[HISTORY_KEY := StoredList(recentSearches)]
      ensures selectedFileTypes == old(selectedFileTypes) && sortOrder == old(sortOrder)
    {
      var updated := Without(recentSearches, query);
      storage := storage[HISTORY_KEY := StoredList(updated)];
      recentSearches := updated;
    }
  }

  // ===== section view state =====

  /** The part of `uiState` the section views change, with the section
      filter. */
  class ViewState {
    var currentView: Option<string>
    var isViewTransitioning: bool
    var startRow: int
    var sectionRefinementFilter: seq<string>

    /** The section filter is empty or belongs to the current view. */
    ghost predicate Valid()
      reads this
    {
      sectionRefinementFilter == [] ||
      (currentView.Some? && sectionRefinementFilter == SectionFilter(currentView.value))
    }

    constructor()
      ensures Valid()
      ensures currentView == None && !isViewTransitioning && startRow == 0 && sectionRefinementFilter == []
    {
      currentView := None;
      isViewTransitioning := false;
      startRow := 0;
      sectionRefinementFilter := [];
    }

    /** `handleSectionClick`. */
    method HandleSectionClick(section: string)
      modifies this
      ensures Valid()
      ensures isViewTransitioning && currentView == Some(section) && startRow == 0
      ensures sectionRefinementFilter == SectionFilter(section)
    {
      isViewTransitioning := true;
      currentView := Some(section);
      startRow := 0;
      sectionRefinementFilter := SectionFilter(section);
    }

    /** `handleBackToSearch`: the start row is left as it was. */
    method HandleBackToSearch()
      modifies this
      ensures Valid()
      ensures isViewTransitioning && currentView == None && sectionRefinementFilter == []
      ensures startRow == old(startRow)
    {
      isViewTransitioning := true;
      currentView := None;
      sectionRefinementFilter := [];
    }

    /** The filters sent with the search. */
    function Filters(selected: seq<string>): (r: seq<string>)
      reads this
      ensures Valid() ==> |r| <= 1
    {
      AllRefinementFiltersCases(currentView, sectionRefinementFilter, selected);
      AllRefinementFilters(currentView, sectionRefinementFilter, selected)
    }
  }

  // ===== the results list =====

  /** The `reduce` behind `searchResults`: the pages' rows, page after page. */
  function ConcatPages(acc: seq<SearchResult>, pages: seq<SearchResults>): seq<SearchResult>
    decreases |pages|
  {
    if |pages| == 0 then acc else ConcatPages(acc + pages[0].relevantResults, pages[1..])
  }

  /** `searchResults`: no pages, no results. */
  function SearchResultsList(pages: Option<seq<SearchResults>>): seq<SearchResult> {
    match pages
    case None => []
    case Some(ps) => ConcatPages([], ps)
  }

  lemma {:induction false} ConcatPagesIsAllResults(acc: seq<SearchResult>, pages: seq<SearchResults>)
    ensures ConcatPages(acc, pages) == acc + UseSearch.AllResults(pages)
    decreases |pages|
  {
    if |pages| > 0 {
      ConcatPagesIsAllResults(acc + pages[0].relevantResults, pages[1..]);
      AllResultsCons(pages);
    }
  }

  lemma {:induction false} AllResultsCons(pages: seq<SearchResults>)
    requires |pages| > 0
    ensures UseSearch.AllResults(pages) == pages[0].relevantResults + UseSearch.AllResults(pages[1..])
  {
    if |pages| > 1 {
      var init := pages[..|pages| - 1];
      AllResultsCons(init);
      assert init[1..] == pages[1..][..|pages[1..]| - 1];
      assert init[0] == pages[0];
    }
  }

  /** The list the dialog shows is the rows of all pages in order, so the
      offset of the next page is the number of results shown. */
  lemma ShownResultsAreFetchedRows(pages: seq<SearchResults>)
    requires |pages| > 0
    ensures SearchResultsList(Some(pages)) == UseSearch.AllResults(pages)
    ensures var next := UseSearch.NextPageParam(pages[|pages| - 1], pages);
      next.Some? ==> next.value == |SearchResultsList(Some(pages))|
  {
    ConcatPagesIsAllResults([], pages);
  }
}

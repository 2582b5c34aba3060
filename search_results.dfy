/** The presentation helpers of the results list: the partition of the
    results into files, pages and other items, the top-three selection per
    section, the site/path label and its truncation, the author name, the
    folder path, and the actions offered for one result. URL parsing is not
    modelled: what `new URL(...)` would give is a parameter. */
module SearchResultsView {
  import opened Wrappers
  import opened Seqs
  import opened Text
  import opened SearchModels

  const DOCUMENT_TYPES: seq<string> := ["docx", "doc", "pdf"]
  const PAGE_TYPES: seq<string> := ["aspx", "page"]
  const SECTION_PREVIEW: nat := 3
  const LABEL_LIMIT: nat := 40

  /** The value of a field, "" when the result does not have it. */
  function Field(result: SearchResult, key: string): string {
    if key in result then result[key] else ""
  }

  /** `item.FileType?.toLowerCase() || ''`. */
  function FileTypeLower(result: SearchResult): string {
    ToLower(Field(result, "FileType"))
  }

  predicate IsDocument(result: SearchResult) {
    FileTypeLower(result) in DOCUMENT_TYPES
  }

  /** `isPage`, which also selects the pages section. */
  predicate IsPage(result: SearchResult) {
    FileTypeLower(result) in PAGE_TYPES
  }

  predicate IsOther(result: SearchResult) {
    FileTypeLower(result) !in DOCUMENT_TYPES + PAGE_TYPES
  }

  function DocumentResults(data: seq<SearchResult>): seq<SearchResult> { Filter(data, IsDocument) }
  function PageResults(data: seq<SearchResult>): seq<SearchResult> { Filter(data, IsPage) }
  function OtherResults(data: seq<SearchResult>): seq<SearchResult> { Filter(data, IsOther) }

  /** Each result falls in exactly one section; one without a file type is
      among the other items. */
  lemma ExactlyOneSection(result: SearchResult)
    ensures (IsDocument(result) && !IsPage(result) && !IsOther(result)) ||
            (!IsDocument(result) && IsPage(result) && !IsOther(result)) ||
            (!IsDocument(result) && !IsPage(result) && IsOther(result))
    ensures "FileType" !in result ==> IsOther(result)
  {
    var t := FileTypeLower(result);
    if t in DOCUMENT_TYPES {
      assert t == "docx" || t == "doc" || t == "pdf";
      assert t !in PAGE_TYPES;
    }
    if "FileType" !in result {
      assert t == "";
    }
  }

  /** The three sections together hold every result exactly once. */
  lemma {:induction false} SectionsPartition(data: seq<SearchResult>)
    ensures multiset(DocumentResults(data)) + multiset(PageResults(data)) + multiset(OtherResults(data))
      == multiset(data)
    ensures |DocumentResults(data)| + |PageResults(data)| + |OtherResults(data)| == |data|
  {
    if |data| > 0 {
      SectionsPartition(data[1..]);
      ExactlyOneSection(data[0]);
      assert data == [data[0]] + data[1..];
    }
    calc {
      |data|;
      |multiset(data)|;
      |multiset(DocumentResults(data)) + multiset(PageResults(data)) + multiset(OtherResults(data))|;
      |DocumentResults(data)| + |PageResults(data)| + |OtherResults(data)|;
    }
  }

  /** One rendered section: its title, the key passed to the section click,
      the count label (the full length) and the items shown. */
  datatype Section = Section(title: string, key: string, count: nat, shown: seq<SearchResult>)

  /** `renderSection`: the count is the section's length, and at most its
      first three items are shown. */
  function RenderSection(title: string, key: string, results: seq<SearchResult>): (s: Section)
    ensures s.count == |results| && s.title == title && s.key == key
    ensures |s.shown| <= SECTION_PREVIEW && |s.shown| <= |results| && s.shown == results[..|s.shown|]
    ensures |results| >= SECTION_PREVIEW ==> |s.shown| == SECTION_PREVIEW
    ensures |results| < SECTION_PREVIEW ==> s.shown == results
  {
    Section(title, key, |results|, Take(results, SECTION_PREVIEW))
  }

  /** What the results list renders. */
  datatype Rendering = Nothing | Skeleton | NoResults | Sections(sections: seq<Section>)

  function SectionIf(title: string, key: string, results: seq<SearchResult>): seq<Section> {
    if |results| > 0 then [RenderSection(title, key, results)] else []
  }

  /** The body of `SearchResults`: nothing without a query, a skeleton while
      the first page loads, a message when nothing was found, otherwise the
      non-empty sections in the order files, pages, other. */
  function Render(query: string, data: seq<SearchResult>, isLoading: bool): (r: Rendering)
    ensures query == "" <==> r.Nothing?
    ensures r.Skeleton? <==> query != "" && isLoading && |data| == 0
    ensures r.NoResults? <==> query != "" && !isLoading && |data| == 0
    ensures r.Sections? <==> query != "" && |data| > 0
  {
    if query == "" then Nothing
    else if isLoading && |data| == 0 then Skeleton
    else if |data| == 0 then NoResults
    else Sections(
      SectionIf("Files", "documents", DocumentResults(data)) +
      SectionIf("Pages", "pages", PageResults(data)) +
      SectionIf("Other", "other", OtherResults(data)))
  }

  /** The rendered sections are the non-empty ones, in the fixed order files,
      pages, other; each shows at most three items. */
  lemma RenderedSections(query: string, data: seq<SearchResult>, isLoading: bool)
    requires query != "" && |data| > 0
    ensures Render(query, data, isLoading).sections ==
      SectionIf("Files", "documents", DocumentResults(data)) +
      SectionIf("Pages", "pages", PageResults(data)) +
      SectionIf("Other", "other", OtherResults(data))
    ensures var ss := Render(query, data, isLoading).sections;
      && 1 <= |ss| <= 3
      && (forall i :: 0 <= i < |ss| ==> ss[i].count > 0 && |ss[i].shown| <= SECTION_PREVIEW)
  {
    SectionsPartition(data);
  }

  /** The count labels of the rendered sections add up to the number of
      results. */
  lemma RenderedCounts(query: string, data: seq<SearchResult>, isLoading: bool)
    requires query != "" && |data| > 0
    ensures SectionCounts(Render(query, data, isLoading).sections) == |data|
  {
    SectionsPartition(data);
    var d := SectionIf("Files", "documents", DocumentResults(data));
    var p := SectionIf("Pages", "pages", PageResults(data));
    var o := SectionIf("Other", "other", OtherResults(data));
    SectionCountsAppend(d, p);
    SectionCountsAppend(d + p, o);
    assert SectionCounts(d) == |DocumentResults(data)|;
    assert SectionCounts(p) == |PageResults(data)|;
    assert SectionCounts(o) == |OtherResults(data)|;
  }

  function SectionCounts(ss: seq<Section>): nat {
    if |ss| == 0 then 0 else SectionCounts(ss[..|ss| - 1]) + ss[|ss| - 1].count
  }

  lemma {:induction false} SectionCountsAppend(a: seq<Section>, b: seq<Section>)
    ensures SectionCounts(a + b) == SectionCounts(a) + SectionCounts(b)
  {
    if |b| > 0 {
      SectionCountsAppend(a, b[..|b| - 1]);
      assert (a + b)[..|a + b| - 1] == a + b[..|b| - 1];
    } else {
      assert a + b == a;
    }
  }

  // ===== one result =====

  /** What `new URL(...)` gives for a string that parses. */
  datatype ParsedUrl = ParsedUrl(origin: string, hostname: string, pathname: string)

  predicate NonEmpty(part: string) {
    part != ""
  }

  /** A path segment that introduces a site name. */
  predicate IsSiteMarker(part: string) {
    ToLower(part) == "sites" || ToLower(part) == "teams"
  }

  /** `findIndex` of the first site marker, -1 when there is none. */
  function SiteIndex(parts: seq<string>): (i: int)
    ensures -1 <= i < |parts|
    ensures i >= 0 ==> IsSiteMarker(parts[i])
    ensures forall k :: 0 <= k < |parts| && (i == -1 || k < i) ==> !IsSiteMarker(parts[k])
  {
    if |parts| == 0 then -1
    else if IsSiteMarker(parts[0]) then 0
    else
      var i := SiteIndex(parts[1..]);
      if i == -1 then -1 else i + 1
  }

  /** The non-empty segments of a pathname. */
  function PathSegments(pathname: string): seq<string> {
    Filter(Split(pathname, '/'), NonEmpty)
  }

  /** `getSiteName`: the segment after the first "sites"/"teams" segment
      when there is one, else the first label of the host name; "" when the
      address does not parse. */
  function SiteName(url: Option<ParsedUrl>): string {
    match url
    case None => ""
    case Some(u) =>
      var parts := PathSegments(u.pathname);
      var i := SiteIndex(parts);
      if i >= 0 && |parts| > i + 1 then parts[i + 1] else Split(u.hostname, '.')[0]
  }

  /** The site name is a path segment following the first marker, or the
      host name up to its first dot. */
  lemma SiteNameCases(u: ParsedUrl)
    ensures var parts := PathSegments(u.pathname);
      var i := SiteIndex(parts);
      || (0 <= i && i + 1 < |parts| && SiteName(Some(u)) == parts[i + 1] &&
          SiteName(Some(u)) != "" && '/' !in SiteName(Some(u)) &&
          (forall k :: 0 <= k < i ==> !IsSiteMarker(parts[k])))
      || (SiteName(Some(u)) == u.hostname[..FirstIndexOf(u.hostname, '.')] &&
          (forall k :: 0 <= k < |parts| - 1 ==> !IsSiteMarker(parts[k])))
  {
    SplitHead(u.hostname, '.');
    var parts := PathSegments(u.pathname);
    var i := SiteIndex(parts);
    if 0 <= i && i + 1 < |parts| {
      assert parts[i + 1] in parts;
    }
  }

  /** `formatPath`: the pathname of an address that parses, else the text. */
  function FormatPath(path: string, url: Option<ParsedUrl>): string {
    match url
    case Some(u) => u.pathname
    case None => path
  }

  /** `sitePathDisplay`; `url` is what parsing the result's `Path` gives. */
  function SitePathLabel(path: string, url: Option<ParsedUrl>): (display: string)
    ensures path == "" ==> display == ""
    ensures path != "" && SiteName(url) != "" ==> display == SiteName(url) + " - " + FormatPath(path, url)
    ensures path != "" && SiteName(url) == "" ==> display == FormatPath(path, url)
  {
    var siteName := if path != "" then SiteName(url) else "";
    var p := if path != "" then FormatPath(path, url) else "";
    if siteName != "" then siteName + " - " + p else p
  }

  /** The label as shown: longer than 40 characters, it is cut to 37 and
      "..." is appended, so what is shown never exceeds 40. */
  function Displayed(display: string): (shown: string)
    ensures |shown| <= LABEL_LIMIT
    ensures |display| <= LABEL_LIMIT ==> shown == display
    ensures |display| > LABEL_LIMIT ==> |shown| == LABEL_LIMIT && shown[..37] == display[..37] && shown[37..] == "..."
  {
    if |display| > LABEL_LIMIT then display[..37] + "..." else display
  }

  /** `getAuthorName`: the trimmed text after the first '|' and before the
      next one, or the whole text when there is no '|'. */
  function AuthorName(author: string): string {
    if '|' in author then Trim(Split(author, '|')[1]) else author
  }

  lemma AuthorNameBetweenBars(author: string)
    ensures '|' !in author ==> AuthorName(author) == author
    ensures '|' in author ==>
      var rest := author[FirstIndexOf(author, '|') + 1..];
      var field := rest[..FirstIndexOf(rest, '|')];
      AuthorName(author) == Trim(field) && '|' !in field
  {
    if '|' in author {
      var i := FirstIndexOf(author, '|');
      var rest := author[i + 1..];
      SplitAtFirst(author, '|');
      SplitHead(rest, '|');
      assert Split(author, '|')[1] == Split(rest, '|')[0];
    }
  }

  /** The string fallback of `getFolderPath`: everything before the last '/',
      or the text itself when it has none. */
  function FolderPathFallback(fullPath: string): string {
    var i := LastIndexOf(fullPath, '/');
    if i != -1 then fullPath[..i] else fullPath
  }

  /** The fallback cuts exactly the last path segment: what it returns, a
      '/', and a tail without '/' make up the input again. */
  lemma FolderPathDecomposes(fullPath: string)
    ensures '/' !in fullPath ==> FolderPathFallback(fullPath) == fullPath
    ensures '/' in fullPath ==>
      var tail := fullPath[LastIndexOf(fullPath, '/') + 1..];
      fullPath == FolderPathFallback(fullPath) + "/" + tail && '/' !in tail
  {
    if '/' in fullPath {
      var i := LastIndexOf(fullPath, '/');
      assert fullPath == fullPath[..i] + [fullPath[i]] + fullPath[i + 1..];
    }
  }

  /** `getFolderPath`: the origin and the pathname up to its last '/' for an
      address that parses, the string fallback otherwise. */
  function FolderPath(fullPath: string, url: Option<ParsedUrl>): string {
    match url
    case Some(u) =>
      var i := LastIndexOf(u.pathname, '/');
      if i != -1 then u.origin + u.pathname[..i] else u.origin
    case None => FolderPathFallback(fullPath)
  }

  /** The folder part of what `handleOpenFolder` opens: the folder path with
      every "/Forms" removed. */
  function OpenFolderPath(fullPath: string, url: Option<ParsedUrl>): (r: string)
    ensures |r| <= |FolderPath(fullPath, url)|
  {
    RemoveAll(FolderPath(fullPath, url), "/Forms")
  }

  /** The address `handleOpenFolder` opens: the folder followed by
      "?q=" and the encoded file name. `encodedName` is what
      `encodeURIComponent(Filename)` returns, `None` when it throws; the
      catch branch then opens the folder alone. */
  function OpenFolderTarget(fullPath: string, url: Option<ParsedUrl>, encodedName: Option<string>): (r: string)
    ensures var folder := OpenFolderPath(fullPath, url);
      |folder| <= |r| && r[..|folder|] == folder
    ensures encodedName.Some? ==> r[|OpenFolderPath(fullPath, url)|..] == "?q=" + encodedName.value
    ensures encodedName.None? ==> r == OpenFolderPath(fullPath, url)
  {
    var folder := OpenFolderPath(fullPath, url);
    match encodedName
    case Some(name) => folder + "?q=" + name
    case None => folder
  }

  /** A text free of `pat` followed by `pat` does not start with it, when the
      first character of `pat` does not recur in it. */
  lemma NotStartsWithSuffixed(s: string, pat: string)
    requires |s| > 0 && |pat| > 0 && Free(s, pat)
    requires forall i :: 1 <= i < |pat| ==> pat[i] != pat[0]
    ensures !StartsWith(s + pat, pat)
  {
    var t := s + pat;
    assert s[0..] == s;
    if |s| >= |pat| {
      assert t[..|pat|] == s[..|pat|];
    } else {
      assert t[|s|] == pat[0] && pat[|s|] != pat[0];
    }
  }

  /** Removing every occurrence of a pattern whose first character does not
      recur in it, from a text that ends in it and has no other occurrence,
      leaves the text before it. */
  lemma {:induction false} RemoveAllSuffix(s: string, pat: string)
    requires |pat| > 0 && Free(s, pat)
    requires forall i :: 1 <= i < |pat| ==> pat[i] != pat[0]
    ensures RemoveAll(s + pat, pat) == s
  {
    var t := s + pat;
    if |s| == 0 {
      assert t == pat;
      assert t[|pat|..] == "";
      assert StartsWith(t, pat);
    } else {
      FreeTail(s, pat);
      NotStartsWithSuffixed(s, pat);
      RemoveAllSuffix(s[1..], pat);
      RemoveAllStep(t, pat);
      assert t[1..] == s[1..] + pat;
      assert s == [s[0]] + s[1..];
    }
  }

  /** A text free of `pat`, followed by `pat` and anything else, does not
      start with `pat` when the first character of `pat` does not recur in
      it. */
  lemma NotStartsWithBefore(a: string, pat: string, b: string)
    requires |a| > 0 && |pat| > 0 && Free(a, pat)
    requires forall i :: 1 <= i < |pat| ==> pat[i] != pat[0]
    ensures !StartsWith(a + pat + b, pat)
  {
    var t := a + pat + b;
    assert a[0..] == a;
    if |a| >= |pat| {
      assert t[..|pat|] == a[..|pat|];
    } else {
      assert t[|a|] == pat[0] && pat[|a|] != pat[0];
    }
  }

  /** Removing every occurrence of a pattern whose first character does not
      recur in it: the text before its first occurrence is kept, that
      occurrence goes, and the removal goes on after it. */
  lemma {:induction false} RemoveAllFirstOccurrence(a: string, pat: string, b: string)
    requires |pat| > 0 && Free(a, pat)
    requires forall i :: 1 <= i < |pat| ==> pat[i] != pat[0]
    ensures RemoveAll(a + pat + b, pat) == a + RemoveAll(b, pat)
  {
    var t := a + pat + b;
    if |a| == 0 {
      assert t == pat + b;
      assert t[..|pat|] == pat;
      assert t[|pat|..] == b;
    } else {
      FreeTail(a, pat);
      NotStartsWithBefore(a, pat, b);
      RemoveAllFirstOccurrence(a[1..], pat, b);
      KeepFirstChar(a, pat, b);
    }
  }

  /** The first character of a text that does not start with the pattern is
      kept in front of what the removal makes of the rest. */
  lemma KeepFirstChar(a: string, pat: string, b: string)
    requires |a| > 0 && |pat| > 0 && !StartsWith(a + pat + b, pat)
    requires RemoveAll(a[1..] + pat + b, pat) == a[1..] + RemoveAll(b, pat)
    ensures RemoveAll(a + pat + b, pat) == a + RemoveAll(b, pat)
  {
    var t := a + pat + b;
    var rest := RemoveAll(b, pat);
    RemoveAllStep(t, pat);
    assert t[0] == a[0];
    assert t[1..] == a[1..] + pat + b;
    ConsTail(a, rest);
  }

  lemma ConsTail(a: string, r: string)
    requires |a| > 0
    ensures [a[0]] + (a[1..] + r) == a + r
  {
    assert a == [a[0]] + a[1..];
  }

  /** The removal is of the text "/Forms" wherever it stands, also inside a
      longer segment name. */
  lemma FormsInsideSegment()
    ensures RemoveAll("/FormsLibrary", "/Forms") == "Library"
  {
    var pat := "/Forms";
    assert forall i :: 1 <= i < |pat| ==> pat[i] != pat[0];
    assert "/FormsLibrary" == "" + pat + "Library";
    RemoveAllFirstOccurrence("", pat, "Library");
    RemoveAllAbsent("Library", pat);
  }

  /** Over a text that does not start with the pattern, `RemoveAll` keeps the
      first character and goes on with the rest. */
  lemma RemoveAllStep(t: string, pat: string)
    requires |t| > 0 && |pat| > 0 && !StartsWith(t, pat)
    ensures RemoveAll(t, pat) == [t[0]] + RemoveAll(t[1..], pat)
  {
  }

  /** A folder path without "/Forms" is opened as it is; one that ends in a
      "/Forms" segment loses it. */
  lemma OpenFolderDropsForms(prefix: string)
    requires Free(prefix, "/Forms")
    ensures RemoveAll(prefix, "/Forms") == prefix
    ensures RemoveAll(prefix + "/Forms", "/Forms") == prefix
  {
    var pat := "/Forms";
    assert forall i :: 1 <= i < |pat| ==> pat[i] != pat[0];
    RemoveAllAbsent(prefix, pat);
    RemoveAllSuffix(prefix, pat);
  }

  /** The actions of a result's menu. */
  datatype MenuAction = View | Open | OpenInFolder | Download | CopyLink

  function MenuActions(result: SearchResult): (actions: seq<MenuAction>)
    ensures View in actions <==> IsPage(result)
    ensures Open in actions && OpenInFolder in actions && Download in actions && CopyLink in actions
  {
    (if IsPage(result) then [View] else []) + [Open, OpenInFolder, Download, CopyLink]
  }
}

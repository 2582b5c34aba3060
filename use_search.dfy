/** The search hook: request building with configurable defaults, the
    reshaping of a raw search response into `SearchResults`, the row fold,
    and the pagination and enabling rules. The network call itself is not
    modelled: its answer is a parameter. */
module UseSearch {
  import opened Wrappers
  import opened Seqs
  import opened Text
  import opened SearchModels

  // ===== configuration =====

  datatype SearchConfig = SearchConfig(
    queryTemplate: string,
    hitHighlightedProperties: seq<string>,
    sourceId: string,
    trimDuplicates: bool,
    summaryLength: int,
    rowLimit: int,
    enableQueryRules: bool,
    enableInterleaving: bool,
    processBestBets: bool,
    processPersonalFavorites: bool)

  const QUERY_TEMPLATE: string :=
    "{searchTerms} XRANK(cb=3.0) title:\"{searchTerms}*\" XRANK(cb=2.75) title:\"{searchTerms}\" XRANK(cb=2.25) filename:\"{searchTerms}*\" XRANK(cb=2.0) filename:\"{searchTerms}\" XRANK(cb=1.8) FileLeafRef:\"{searchTerms}*\" XRANK(cb=1.5) path:\"{searchTerms}\" OR title:\"*{searchTerms}*\" OR filename:\"*{searchTerms}*\" OR FileLeafRef:\"*{searchTerms}*\""

  const SOURCE_ID: string := "8413CD39-2156-4E00-B54D-11EFD9ABDB89"

  const DEFAULT_SEARCH_CONFIG: SearchConfig := SearchConfig(
    QUERY_TEMPLATE,
    ["Title", "Path", "Author", "Filename", "FileLeafRef", "Description"],
    SOURCE_ID,
    false, 300, 50, true, true, true, true)

  /** The fields a caller may pass to override the defaults; `None` means the
      field was not given. */
  datatype PartialConfig = PartialConfig(
    queryTemplate: Option<string>,
    hitHighlightedProperties: Option<seq<string>>,
    sourceId: Option<string>,
    trimDuplicates: Option<bool>,
    summaryLength: Option<int>,
    rowLimit: Option<int>,
    enableQueryRules: Option<bool>,
    enableInterleaving: Option<bool>,
    processBestBets: Option<bool>,
    processPersonalFavorites: Option<bool>)

  const NO_OVERRIDES: PartialConfig :=
    PartialConfig(None, None, None, None, None, None, None, None, None, None)

  /** `{ ...DEFAULT_SEARCH_CONFIG, ...config }`: every field the caller gives
      wins, every other keeps its default. */
  function MergeConfig(config: PartialConfig): (c: SearchConfig)
    ensures config.rowLimit.Some? ==> c.rowLimit == config.rowLimit.value
    ensures config.rowLimit.None? ==> c.rowLimit == 50
    ensures config.summaryLength.Some? ==> c.summaryLength == config.summaryLength.value
    ensures config.summaryLength.None? ==> c.summaryLength == 300
    ensures config.trimDuplicates.Some? ==> c.trimDuplicates == config.trimDuplicates.value
    ensures config.trimDuplicates.None? ==> !c.trimDuplicates
    ensures config.enableQueryRules.Some? ==> c.enableQueryRules == config.enableQueryRules.value
    ensures config.enableQueryRules.None? ==> c.enableQueryRules
    ensures config.enableInterleaving.Some? ==> c.enableInterleaving == config.enableInterleaving.value
    ensures config.enableInterleaving.None? ==> c.enableInterleaving
    ensures config.processBestBets.Some? ==> c.processBestBets == config.processBestBets.value
    ensures config.processBestBets.None? ==> c.processBestBets
    ensures config.processPersonalFavorites.Some? ==> c.processPersonalFavorites == config.processPersonalFavorites.value
    ensures config.processPersonalFavorites.None? ==> c.processPersonalFavorites
    ensures config.sourceId.Some? ==> c.sourceId == config.sourceId.value
    ensures config.sourceId.None? ==> c.sourceId == SOURCE_ID
    ensures config.queryTemplate.Some? ==> c.queryTemplate == config.queryTemplate.value
    ensures config.queryTemplate.None? ==> c.queryTemplate == QUERY_TEMPLATE
    ensures config.hitHighlightedProperties.Some? ==> c.hitHighlightedProperties == config.hitHighlightedProperties.value
    ensures config.hitHighlightedProperties.None? ==>
      c.hitHighlightedProperties == ["Title", "Path", "Author", "Filename", "FileLeafRef", "Description"]
  {
    var d := DEFAULT_SEARCH_CONFIG;
    SearchConfig(
      config.queryTemplate.GetOr(d.queryTemplate),
      config.hitHighlightedProperties.GetOr(d.hitHighlightedProperties),
      config.sourceId.GetOr(d.sourceId),
      config.trimDuplicates.GetOr(d.trimDuplicates),
      config.summaryLength.GetOr(d.summaryLength),
      config.rowLimit.GetOr(d.rowLimit),
      config.enableQueryRules.GetOr(d.enableQueryRules),
      config.enableInterleaving.GetOr(d.enableInterleaving),
      config.processBestBets.GetOr(d.processBestBets),
      config.processPersonalFavorites.GetOr(d.processPersonalFavorites))
  }

  /** Every field of a configuration, as overrides. */
  function AllFields(c: SearchConfig): PartialConfig {
    PartialConfig(Some(c.queryTemplate), Some(c.hitHighlightedProperties), Some(c.sourceId),
      Some(c.trimDuplicates), Some(c.summaryLength), Some(c.rowLimit), Some(c.enableQueryRules),
      Some(c.enableInterleaving), Some(c.processBestBets), Some(c.processPersonalFavorites))
  }

  /** Without overrides the configuration is the default one; overriding every
      field gives exactly the configuration supplied. */
  lemma MergeConfigExtremes(c: SearchConfig)
    ensures MergeConfig(NO_OVERRIDES) == DEFAULT_SEARCH_CONFIG
    ensures MergeConfig(AllFields(c)) == c
  {
  }

  // ===== request =====

  datatype Sort = Sort(Property: string, Direction: int)

  /** The request sent to the search service. */
  datatype SearchQuery = SearchQuery(
    Querytext: string,
    SelectProperties: seq<string>,
    TrimDuplicates: bool,
    SummaryLength: int,
    RowLimit: int,
    StartRow: int,
    RefinementFilters: seq<string>,
    SortList: seq<Sort>,
    EnableQueryRules: bool,
    EnableInterleaving: bool,
    ProcessBestBets: bool,
    ProcessPersonalFavorites: bool,
    QueryTemplate: string,
    HitHighlightedProperties: seq<string>,
    SourceId: string)

  /** The parameters the hook receives; `None` is a parameter left out. */
  datatype SearchParams = SearchParams(
    query: string,
    refinementFilters: Option<seq<string>>,
    startRow: Option<int>,
    sortProperty: Option<string>,
    sortDirection: Option<string>)

  const RELEVANCE: string := "relevance"
  const DESC: string := "desc"
  const ASC: string := "asc"
  const DEFAULT_SORT_PROPERTY: string := "LastModifiedTime"

  /** `sortProperty || 'LastModifiedTime'`: an empty property name counts as
      absent. */
  function SortPropertyOf(params: SearchParams): string {
    if params.sortProperty.Some? && params.sortProperty.value != "" then params.sortProperty.value
    else DEFAULT_SORT_PROPERTY
  }

  /** `buildSearchQuery(pageParam)`. `selectProperties` stands for the
      module-level property list the request projects. */
  function BuildSearchQuery(params: SearchParams, sortOrder: string, config: SearchConfig,
                            selectProperties: seq<string>, pageParam: int): (q: SearchQuery)
    ensures q.Querytext == params.query && q.StartRow == pageParam
    ensures q.SelectProperties == selectProperties
    ensures params.refinementFilters.Some? ==> q.RefinementFilters == params.refinementFilters.value
    ensures params.refinementFilters.None? ==> q.RefinementFilters == []
    ensures q.SortList == [] <==> sortOrder == RELEVANCE
    ensures sortOrder != RELEVANCE ==>
      |q.SortList| == 1 && q.SortList[0].Property == SortPropertyOf(params) &&
      q.SortList[0].Direction == (if sortOrder == DESC then 1 else 0)
    ensures q.RowLimit == config.rowLimit && q.SummaryLength == config.summaryLength
    ensures q.TrimDuplicates == config.trimDuplicates && q.SourceId == config.sourceId
    ensures q.QueryTemplate == config.queryTemplate
    ensures q.HitHighlightedProperties == config.hitHighlightedProperties
    ensures q.EnableQueryRules == config.enableQueryRules && q.EnableInterleaving == config.enableInterleaving
    ensures q.ProcessBestBets == config.processBestBets && q.ProcessPersonalFavorites == config.processPersonalFavorites
  {
    SearchQuery(
      params.query,
      selectProperties,
      config.trimDuplicates,
      config.summaryLength,
      config.rowLimit,
      pageParam,
      params.refinementFilters.GetOr([]),
      if sortOrder == RELEVANCE then [] else [Sort(SortPropertyOf(params), if sortOrder == DESC then 1 else 0)],
      config.enableQueryRules,
      config.enableInterleaving,
      config.processBestBets,
      config.processPersonalFavorites,
      config.queryTemplate,
      config.hitHighlightedProperties,
      config.sourceId)
  }

  /** The sort order a request encodes, read back from its sort list. */
  function SortOrderOf(sortList: seq<Sort>): string {
    if |sortList| == 0 then RELEVANCE
    else if sortList[0].Direction == 1 then DESC
    else ASC
  }

  /** The request's sort list records the sort order it was built for. */
  lemma SortOrderRoundTrip(params: SearchParams, sortOrder: string, config: SearchConfig,
                           selectProperties: seq<string>, pageParam: int)
    requires sortOrder == RELEVANCE || sortOrder == DESC || sortOrder == ASC
    ensures SortOrderOf(BuildSearchQuery(params, sortOrder, config, selectProperties, pageParam).SortList) == sortOrder
  {
  }

  // ===== raw response =====

  datatype RawCell = RawCell(Key: string, Value: string)
  datatype RawRow = RawRow(Cells: seq<RawCell>)
  datatype RawTable = RawTable(Rows: seq<RawRow>)
  datatype RawProperty = RawProperty(Key: string, Value: string)

  datatype RawRelevantResults = RawRelevantResults(
    Properties: Option<seq<RawProperty>>,
    Table: Option<RawTable>,
    TotalRows: Option<int>,
    ResultTitle: string)

  datatype RawRefinementEntry = RawRefinementEntry(
    RefinementCount: string,
    RefinementValue: string,
    RefinementToken: string)

  datatype RawRefiner = RawRefiner(Name: string, Entries: seq<RawRefinementEntry>)
  datatype RawRefinementResults = RawRefinementResults(Refiners: seq<RawRefiner>)

  datatype RawPrimaryQueryResult = RawPrimaryQueryResult(
    RelevantResults: Option<RawRelevantResults>,
    RefinementResults: Option<RawRefinementResults>)

  datatype RawSpecialTermResult = RawSpecialTermResult(Title: string, Url: string, Description: string)
  datatype RawSpecialTermResults = RawSpecialTermResults(Results: seq<RawSpecialTermResult>)

  datatype RawSecondaryQueryResult = RawSecondaryQueryResult(
    SpecialTermResults: Option<RawSpecialTermResults>,
    RelevantResults: Option<RawRelevantResults>)

  /** `SecondaryQueryResults` is `None` when absent or not an array. */
  datatype RawSearchResults = RawSearchResults(
    PrimaryQueryResult: Option<RawPrimaryQueryResult>,
    SpellingSuggestion: Option<string>,
    SecondaryQueryResults: Option<seq<RawSecondaryQueryResult>>)

  datatype SearchResponse = SearchResponse(RawSearchResults: Option<RawSearchResults>)

  /** Where the reshaping throws a `TypeError`. */
  datatype QueryError =
    | NoResponse              // `searchResponse.RawSearchResults` on a missing response
    | NoRawSearchResults      // `rawSearchResults.SecondaryQueryResults` on a missing object
    | NoPrimaryResultTable    // `getSearchResults(undefined)`
    | NoSecondaryResultTable  // `e.RelevantResults.Table.Rows` on a missing table

  // ===== row folding =====

  /** A cell that always sets `FileType`: a non-empty `HtmlFileType`. */
  predicate IsOverride(cell: RawCell) {
    cell.Key == "HtmlFileType" && cell.Value != ""
  }

  /** The key holds a non-empty (truthy) value. */
  predicate IsSet(result: SearchResult, key: string) {
    key in result && result[key] != ""
  }

  /** The first-non-empty rule: a cell sets its key unless the key already
      holds a non-empty value. */
  function KeepFirst(result: SearchResult, cell: RawCell): SearchResult {
    if !IsSet(result, cell.Key) then result[cell.Key := cell.Value] else result
  }

  /** One step of the fold over a row's cells. */
  function ApplyCell(result: SearchResult, cell: RawCell): SearchResult {
    if IsOverride(cell) then result["FileType" := cell.Value] else KeepFirst(result, cell)
  }

  /** The row the cells fold into, cell by cell from the first. */
  function FoldCells(cells: seq<RawCell>): SearchResult {
    if |cells| == 0 then map[] else ApplyCell(FoldCells(cells[..|cells| - 1]), cells[|cells| - 1])
  }

  /** `getSearchResults`: one result per row, in row order. */
  method GetSearchResults(rows: seq<RawRow>) returns (results: seq<SearchResult>)
    ensures |results| == |rows|
    ensures forall i :: 0 <= i < |rows| ==> results[i] == FoldCells(rows[i].Cells)
  {
    results := [];
    for i := 0 to |rows|
      invariant |results| == i
      invariant forall k :: 0 <= k < i ==> results[k] == FoldCells(rows[k].Cells)
    {
      var cells := rows[i].Cells;
      var result: SearchResult := map[];
      for j := 0 to |cells|
        invariant result == FoldCells(cells[..j])
      {
        assert cells[..j + 1][..j] == cells[..j];
        var cell := cells[j];
        if cell.Key == "HtmlFileType" && cell.Value != "" {
          result := result["FileType" := cell.Value];
        } else if !(cell.Key in result && result[cell.Key] != "") {
          result := result[cell.Key := cell.Value];
        }
      }
      assert cells[..|cells|] == cells;
      results := results + [result];
    }
  }

  // ----- the two-pass reading of the fold -----

  /** The cells other than the overriding ones, in order. */
  function Plain(cells: seq<RawCell>): seq<RawCell> {
    if |cells| == 0 then []
    else
      var last := cells[|cells| - 1];
      Plain(cells[..|cells| - 1]) + (if IsOverride(last) then [] else [last])
  }

  /** First pass: the first non-empty value of each key wins. */
  function FirstWins(cells: seq<RawCell>): SearchResult {
    if |cells| == 0 then map[] else KeepFirst(FirstWins(cells[..|cells| - 1]), cells[|cells| - 1])
  }

  /** The index of the last overriding cell, -1 if there is none. */
  function LastOverrideIndex(cells: seq<RawCell>): (i: int)
    ensures -1 <= i < |cells|
    ensures i >= 0 ==> IsOverride(cells[i])
    ensures forall k :: i < k < |cells| ==> !IsOverride(cells[k])
  {
    if |cells| == 0 then -1
    else if IsOverride(cells[|cells| - 1]) then |cells| - 1
    else LastOverrideIndex(cells[..|cells| - 1])
  }

  /** Second pass: the last overriding cell sets `FileType`. */
  function TwoPass(cells: seq<RawCell>): SearchResult {
    var base := FirstWins(Plain(cells));
    var i := LastOverrideIndex(cells);
    if i >= 0 then base["FileType" := cells[i].Value] else base
  }

  /** The single-pass fold equals the two-pass reading: first non-empty value
      wins for every key, then a non-empty `HtmlFileType` overrides `FileType`. */
  lemma {:induction false} FoldIsTwoPass(cells: seq<RawCell>)
    ensures FoldCells(cells) == TwoPass(cells)
  {
    if |cells| > 0 {
      var n := |cells|;
      var init := cells[..n - 1];
      var c := cells[n - 1];
      FoldIsTwoPass(init);
      var base := FirstWins(Plain(init));
      var i := LastOverrideIndex(init);
      if IsOverride(c) {
        assert Plain(cells) == Plain(init);
        assert LastOverrideIndex(cells) == n - 1;
      } else {
        var p := Plain(init) + [c];
        assert Plain(cells) == p;
        assert p[..|p| - 1] == Plain(init);
        assert FirstWins(Plain(cells)) == KeepFirst(base, c);
        assert LastOverrideIndex(cells) == i;
        if i >= 0 {
          var v := init[i].Value;
          assert cells[i].Value == v && v != "";
          OverrideCommutes(base, c, v);
        }
      }
    }
  }

  /** A plain cell read after the override gives the same map as read before
      it. */
  lemma OverrideCommutes(base: SearchResult, c: RawCell, v: string)
    requires !IsOverride(c) && v != ""
    ensures ApplyCell(base["FileType" := v], c) == KeepFirst(base, c)["FileType" := v]
  {
    if c.Key == "FileType" {
      assert IsSet(base["FileType" := v], c.Key);
    } else {
      assert IsSet(base["FileType" := v], c.Key) == IsSet(base, c.Key);
    }
  }

  /** First non-empty wins: a key's value is that of the first cell that gives
      it a non-empty value, unless an override replaces `FileType`. */
  lemma {:induction false} FirstNonEmptyWins(cells: seq<RawCell>, i: nat)
    requires i < |cells| && cells[i].Value != ""
    requires forall k :: 0 <= k < i && cells[k].Key == cells[i].Key ==> cells[k].Value == ""
    ensures IsSet(FirstWins(cells), cells[i].Key)
    ensures FirstWins(cells)[cells[i].Key] == cells[i].Value
  {
    var n := |cells|;
    var key := cells[i].Key;
    if i == n - 1 {
      NoEarlierValue(cells[..n - 1], key);
    } else {
      FirstNonEmptyWins(cells[..n - 1], i);
    }
  }

  /** While every cell of a key is empty, the key holds no non-empty value. */
  lemma {:induction false} NoEarlierValue(cells: seq<RawCell>, key: string)
    requires forall k :: 0 <= k < |cells| && cells[k].Key == key ==> cells[k].Value == ""
    ensures !IsSet(FirstWins(cells), key)
  {
    if |cells| > 0 {
      NoEarlierValue(cells[..|cells| - 1], key);
    }
  }

  /** In the fold itself: a key other than `FileType` and `HtmlFileType` holds
      the value of its first cell with a non-empty value. */
  lemma {:induction false} FoldKeepsFirstNonEmpty(cells: seq<RawCell>, i: nat)
    requires i < |cells| && cells[i].Value != ""
    requires cells[i].Key != "FileType" && cells[i].Key != "HtmlFileType"
    requires forall k :: 0 <= k < i && cells[k].Key == cells[i].Key ==> cells[k].Value == ""
    ensures cells[i].Key in FoldCells(cells) && FoldCells(cells)[cells[i].Key] == cells[i].Value
  {
    var n := |cells|;
    var key := cells[i].Key;
    if i == n - 1 {
      FoldNoEarlierValue(cells[..n - 1], key);
    } else {
      FoldKeepsFirstNonEmpty(cells[..n - 1], i);
    }
  }

  /** In the fold, a key other than `FileType` whose cells are all empty holds
      no non-empty value. */
  lemma {:induction false} FoldNoEarlierValue(cells: seq<RawCell>, key: string)
    requires key != "FileType"
    requires forall k :: 0 <= k < |cells| && cells[k].Key == key ==> cells[k].Value == ""
    ensures !IsSet(FoldCells(cells), key)
  {
    if |cells| > 0 {
      FoldNoEarlierValue(cells[..|cells| - 1], key);
    }
  }

  /** A non-empty `HtmlFileType` always decides `FileType`, before or after any
      `FileType` cell; with several, the last one wins. */
  lemma HtmlFileTypeWins(cells: seq<RawCell>, i: nat)
    requires i < |cells| && IsOverride(cells[i])
    requires forall k :: i < k < |cells| ==> !IsOverride(cells[k])
    ensures "FileType" in FoldCells(cells) && FoldCells(cells)["FileType"] == cells[i].Value
  {
    FoldIsTwoPass(cells);
    assert LastOverrideIndex(cells) == i;
  }

  /** Keys other than `FileType` are never touched by an override: their value
      is the one the first pass gives over the plain cells. */
  lemma OtherKeysFromFirstPass(cells: seq<RawCell>, key: string)
    requires key != "FileType"
    ensures key in FoldCells(cells) <==> key in FirstWins(Plain(cells))
    ensures key in FoldCells(cells) ==> FoldCells(cells)[key] == FirstWins(Plain(cells))[key]
  {
    FoldIsTwoPass(cells);
  }

  // ===== reshaping =====

  /** One facet value: the count parsed in base 10, the display name with its
      first "string;#" removed, the raw token, and the Contains operator. */
  function FacetValue(entry: RawRefinementEntry): DataFilterResultValue {
    DataFilterResultValue(
      ReplaceFirst(entry.RefinementValue, "string;#", ""),
      entry.RefinementToken,
      Some(Contains),
      ParseInt(entry.RefinementCount))
  }

  /** A facet entry the service serialised as `string;#<name>` with a count
      written in decimal comes back as that name and that count. */
  lemma FacetValueReadsEntry(name: string, count: int, token: string)
    ensures FacetValue(RawRefinementEntry(IntString(count), "string;#" + name, token))
      == DataFilterResultValue(name, token, Some(Contains), Some(count))
  {
    ParseIntRoundTrip(count, "");
    assert IntString(count) + "" == IntString(count);
    PrefixReplaced(name);
  }

  /** Replacing the first "string;#" of a value that starts with it leaves the
      rest. */
  lemma PrefixReplaced(name: string)
    ensures ReplaceFirst("string;#" + name, "string;#", "") == name
  {
    var p := "string;#";
    assert (p + name)[..|p|] == p;
    assert StartsWith(p + name, p);
    assert (p + name)[|p|..] == name;
  }

  function FacetValues(entries: seq<RawRefinementEntry>): (vs: seq<DataFilterResultValue>)
    ensures |vs| == |entries|
    ensures forall j :: 0 <= j < |entries| ==> vs[j] == FacetValue(entries[j])
  {
    seq(|entries|, j requires 0 <= j < |entries| => FacetValue(entries[j]))
  }

  /** One refiner as a facet: its name and its entries' values, in order. */
  function Facet(refiner: RawRefiner): DataFilterResult {
    DataFilterResult(refiner.Name, FacetValues(refiner.Entries))
  }

  predicate IsQueryModification(p: RawProperty) {
    p.Key == "QueryModification"
  }

  /** `queryModification` is the value of the only `QueryModification`
      property; none when there are none or several. */
  function QueryModificationOf(properties: Option<seq<RawProperty>>): (r: Option<string>)
    ensures r.Some? <==> properties.Some? && |Filter(properties.value, IsQueryModification)| == 1
    ensures r.Some? ==> exists p :: p in properties.value && IsQueryModification(p) && p.Value == r.value
  {
    if properties.Some? then
      var found := Filter(properties.value, IsQueryModification);
      if |found| == 1 then
        assert found[0] in found;
        Some(found[0].Value)
      else None
    else None
  }

  /** `RelevantResults?.TotalRows || 0`. */
  function TotalRowsOf(relevant: RawRelevantResults): int {
    relevant.TotalRows.GetOr(0)
  }

  function Promoted(r: RawSpecialTermResult): PromotedResult {
    PromotedResult(r.Url, r.Title, r.Description)
  }

  /** The promoted results one secondary entry contributes. */
  function PromotedOf(e: RawSecondaryQueryResult): seq<PromotedResult> {
    match e.SpecialTermResults
    case Some(rs) => seq(|rs.Results|, k requires 0 <= k < |rs.Results| => Promoted(rs.Results[k]))
    case None => []
  }

  function AllPromoted(es: seq<RawSecondaryQueryResult>): seq<PromotedResult> {
    if |es| == 0 then [] else AllPromoted(es[..|es| - 1]) + PromotedOf(es[|es| - 1])
  }

  function FoldRows(rows: seq<RawRow>): seq<SearchResult> {
    seq(|rows|, i requires 0 <= i < |rows| => FoldCells(rows[i].Cells))
  }

  /** The result block one secondary entry contributes: none unless it has a
      table with at least one row. */
  function BlockOf(e: RawSecondaryQueryResult): seq<SearchResultBlock> {
    if e.RelevantResults.Some? && e.RelevantResults.value.Table.Some? &&
       |e.RelevantResults.value.Table.value.Rows| > 0
    then [SearchResultBlock(e.RelevantResults.value.ResultTitle, FoldRows(e.RelevantResults.value.Table.value.Rows))]
    else []
  }

  function AllBlocks(es: seq<RawSecondaryQueryResult>): seq<SearchResultBlock> {
    if |es| == 0 then [] else AllBlocks(es[..|es| - 1]) + BlockOf(es[|es| - 1])
  }

  predicate PrimaryThrows(raw: RawSearchResults) {
    raw.PrimaryQueryResult.Some? &&
    (raw.PrimaryQueryResult.value.RelevantResults.None? ||
     raw.PrimaryQueryResult.value.RelevantResults.value.Table.None?)
  }

  predicate SecondaryThrows(raw: RawSearchResults) {
    raw.SecondaryQueryResults.Some? &&
    exists i :: 0 <= i < |raw.SecondaryQueryResults.value| && MissingTable(raw.SecondaryQueryResults.value[i])
  }

  predicate Throws(response: Option<SearchResponse>) {
    response.None? || response.value.RawSearchResults.None? ||
    PrimaryThrows(response.value.RawSearchResults.value) ||
    SecondaryThrows(response.value.RawSearchResults.value)
  }

  /** The values of one refiner, entry by entry. */
  method GetFacetValues(entries: seq<RawRefinementEntry>) returns (values: seq<DataFilterResultValue>)
    ensures values == FacetValues(entries)
  {
    values := [];
    for j := 0 to |entries|
      invariant |values| == j
      invariant forall k :: 0 <= k < j ==> values[k] == FacetValue(entries[k])
    {
      values := values + [FacetValue(entries[j])];
    }
  }


  /** The facets of the primary result, refiner by refiner. */
  method GetRefinementResults(refiners: seq<RawRefiner>) returns (facets: seq<DataFilterResult>)
    ensures |facets| == |refiners|
    ensures forall i :: 0 <= i < |refiners| ==> facets[i] == Facet(refiners[i])
  {
    facets := [];
    for i := 0 to |refiners|
      invariant |facets| == i
      invariant forall k :: 0 <= k < i ==> facets[k] == Facet(refiners[k])
    {
      var values := GetFacetValues(refiners[i].Entries);
      facets := facets + [DataFilterResult(refiners[i].Name, values)];
    }
  }

  /** A secondary entry with results but without a table makes the reshaping
      throw. */
  predicate MissingTable(e: RawSecondaryQueryResult) {
    e.RelevantResults.Some? && e.RelevantResults.value.Table.None?
  }

  /** The promoted results of one entry, in order. */
  method GetPromotedResults(rs: seq<RawSpecialTermResult>) returns (added: seq<PromotedResult>)
    ensures |added| == |rs|
    ensures forall k :: 0 <= k < |rs| ==> added[k] == Promoted(rs[k])
  {
    added := [];
    for j := 0 to |rs|
      invariant |added| == j
      invariant forall k :: 0 <= k < j ==> added[k] == Promoted(rs[k])
    {
      added := added + [Promoted(rs[j])];
    }
  }

  /** The promoted results and the non-empty result blocks of the secondary
      entries, in entry order. */
  method GetSecondaryResults(es: seq<RawSecondaryQueryResult>)
    returns (r: Result<(seq<PromotedResult>, seq<SearchResultBlock>), QueryError>)
    ensures r.Failure? <==> exists i :: 0 <= i < |es| && MissingTable(es[i])
    ensures r.Failure? ==> r.error == NoSecondaryResultTable
    ensures r.Success? ==> r.value == (AllPromoted(es), AllBlocks(es))
  {
    var promotedResults: seq<PromotedResult> := [];
    var secondaryResults: seq<SearchResultBlock> := [];
    for i := 0 to |es|
      invariant promotedResults == AllPromoted(es[..i])
      invariant secondaryResults == AllBlocks(es[..i])
      invariant forall k :: 0 <= k < i ==> !MissingTable(es[k])
    {
      assert es[..i + 1][..i] == es[..i];
      var e := es[i];
      if e.SpecialTermResults.Some? {
        var added := GetPromotedResults(e.SpecialTermResults.value.Results);
        promotedResults := promotedResults + added;
      }
      if e.RelevantResults.Some? {
        if e.RelevantResults.value.Table.None? {
          return Failure(NoSecondaryResultTable);
        }
        var items := GetSearchResults(e.RelevantResults.value.Table.value.Rows);
        assert items == FoldRows(e.RelevantResults.value.Table.value.Rows);
        var block := SearchResultBlock(e.RelevantResults.value.ResultTitle, items);
        if |block.results| > 0 {
          secondaryResults := secondaryResults + [block];
        }
      }
    }
    assert es[..|es|] == es;
    return Success((promotedResults, secondaryResults));
  }

  /** The page built from the primary result, when it has a result table. */
  predicate PrimaryPage(query: string, raw: RawSearchResults, res: SearchResults)
    requires raw.PrimaryQueryResult.Some? && !PrimaryThrows(raw)
  {
    var p := raw.PrimaryQueryResult.value;
    var refiners := if p.RefinementResults.Some? then p.RefinementResults.value.Refiners else [];
    && res.queryKeywords == query
    && res.relevantResults == FoldRows(p.RelevantResults.value.Table.value.Rows)
    && |res.refinementResults| == |refiners|
    && (forall i :: 0 <= i < |refiners| ==> res.refinementResults[i] == Facet(refiners[i]))
    && res.totalRows == TotalRowsOf(p.RelevantResults.value)
    && res.queryModification == QueryModificationOf(p.RelevantResults.value.Properties)
    && (res.spellingSuggestion.Some? <==> raw.SpellingSuggestion.Some? && raw.SpellingSuggestion.value != "")
    && (res.spellingSuggestion.Some? ==> res.spellingSuggestion == raw.SpellingSuggestion)
  }

  /** The page when there is no primary result: only the query is filled in. */
  predicate EmptyPage(query: string, res: SearchResults) {
    && res.queryKeywords == query
    && res.relevantResults == [] && res.refinementResults == [] && res.totalRows == 0
    && res.queryModification.None? && res.spellingSuggestion.None?
  }

  /** The secondary part of a page: filled in only from a non-empty list of
      secondary entries. */
  predicate SecondaryPage(raw: RawSearchResults, res: SearchResults) {
    if raw.SecondaryQueryResults.Some? && |raw.SecondaryQueryResults.value| > 0 then
      res.promotedResults == Some(AllPromoted(raw.SecondaryQueryResults.value)) &&
      res.secondaryResults == AllBlocks(raw.SecondaryQueryResults.value)
    else
      res.promotedResults.None? && res.secondaryResults == []
  }

  /** The body of `queryFn` after the request: reshape the service's answer
      into one page of `SearchResults`. */
  method QueryFn(query: string, response: Option<SearchResponse>) returns (r: Result<SearchResults, QueryError>)
    ensures r.Failure? <==> Throws(response)
    ensures r.Success? ==>
      var raw := response.value.RawSearchResults.value;
      && (raw.PrimaryQueryResult.None? ==> EmptyPage(query, r.value))
      && (raw.PrimaryQueryResult.Some? ==> PrimaryPage(query, raw, r.value))
      && SecondaryPage(raw, r.value)
  {
    var results := SearchResults(None, query, [], [], [], None, None, 0);

    if response.Some? && response.value.RawSearchResults.Some? {
      var raw := response.value.RawSearchResults.value;
      if raw.PrimaryQueryResult.Some? {
        var p := raw.PrimaryQueryResult.value;

        if p.RelevantResults.Some? {
          var qm := QueryModificationOf(p.RelevantResults.value.Properties);
          if qm.Some? {
            results := results.(queryModification := qm);
          }
        }

        if p.RelevantResults.None? || p.RelevantResults.value.Table.None? {
          return Failure(NoPrimaryResultTable);
        }
        var relevant := p.RelevantResults.value;
        var searchResults := GetSearchResults(relevant.Table.value.Rows);
        var refiners := if p.RefinementResults.Some? then p.RefinementResults.value.Refiners else [];
        var refinementResults := GetRefinementResults(refiners);

        results := results.(relevantResults := searchResults, refinementResults := refinementResults,
                            totalRows := TotalRowsOf(relevant));
        if raw.SpellingSuggestion.Some? && raw.SpellingSuggestion.value != "" {
          results := results.(spellingSuggestion := raw.SpellingSuggestion);
        }
        assert PrimaryPage(query, raw, results);
      }
    }

    if response.None? {
      return Failure(NoResponse);
    }
    if response.value.RawSearchResults.None? {
      return Failure(NoRawSearchResults);
    }
    var raw := response.value.RawSearchResults.value;

    if raw.SecondaryQueryResults.Some? && |raw.SecondaryQueryResults.value| > 0 {
      var secondary := GetSecondaryResults(raw.SecondaryQueryResults.value);
      if secondary.Failure? {
        return Failure(secondary.error);
      }
      results := results.(promotedResults := Some(secondary.value.0), secondaryResults := secondary.value.1);
    }
    return Success(results);
  }

  // ===== pagination =====

  /** `flatMap(allPages, page => page.relevantResults)`. */
  function AllResults(pages: seq<SearchResults>): seq<SearchResult> {
    if |pages| == 0 then [] else AllResults(pages[..|pages| - 1]) + pages[|pages| - 1].relevantResults
  }

  /** `getNextPageParam`: the number of rows fetched so far, while that is
      below the last page's `totalRows`. */
  function NextPageParam(lastPage: SearchResults, allPages: seq<SearchResults>): (r: Option<int>)
    ensures r.Some? <==> |AllResults(allPages)| < lastPage.totalRows
    ensures r.Some? ==> r.value == |AllResults(allPages)|
  {
    var currentItemCount := |AllResults(allPages)|;
    if currentItemCount < lastPage.totalRows then Some(currentItemCount) else None
  }

  /** `enabled: !!searchParams.query`. */
  predicate Enabled(params: SearchParams) {
    params.query != ""
  }

  /** A whitespace-only query is fetched: only the empty string disables it. */
  lemma WhitespaceQueryIsFetched(params: SearchParams)
    requires params.query != "" && IsBlank(params.query)
    ensures Enabled(params)
  {
  }

  /** Each non-empty page moves the next offset strictly forward, by the
      number of rows it brought. */
  lemma NextOffsetAdvances(pages: seq<SearchResults>, next: SearchResults)
    requires |pages| > 0 && NextPageParam(pages[|pages| - 1], pages).Some?
    ensures var after := NextPageParam(next, pages + [next]);
      after.Some? ==> after.value == NextPageParam(pages[|pages| - 1], pages).value + |next.relevantResults|
  {
    assert (pages + [next])[..|pages|] == pages;
  }

  /** At least one row per page: `k` non-empty pages hold at least `k` rows. */
  lemma {:induction false} RowsAtLeastPages(pages: seq<SearchResults>)
    requires forall i :: 0 <= i < |pages| ==> |pages[i].relevantResults| > 0
    ensures |AllResults(pages)| >= |pages|
  {
    if |pages| > 0 {
      RowsAtLeastPages(pages[..|pages| - 1]);
    }
  }

  /** A page that comes back empty while fewer rows than the total have been
      fetched asks again for the same offset: "Load more" repeats the same
      request. */
  lemma EmptyPageRepeatsOffset(pages: seq<SearchResults>, empty: SearchResults)
    requires |pages| > 0 && NextPageParam(pages[|pages| - 1], pages).Some?
    requires |empty.relevantResults| == 0 && empty.totalRows == pages[|pages| - 1].totalRows
    ensures NextPageParam(empty, pages + [empty]) == NextPageParam(pages[|pages| - 1], pages)
  {
    assert (pages + [empty])[..|pages|] == pages;
  }

  /** Pagination terminates: when every page brings at least one row and the
      service reports the same total, a page is requested only while the
      offset is below the total, so there are at most `total` pages beyond
      the first. */
  lemma PaginationTerminates(pages: seq<SearchResults>, total: int)
    requires |pages| > 0
    requires forall i :: 0 <= i < |pages| ==> |pages[i].relevantResults| > 0 && pages[i].totalRows == total
    requires forall k :: 1 <= k < |pages| ==> NextPageParam(pages[k - 1], pages[..k]).Some?
    ensures |pages| - 1 <= (if total < 0 then 0 else total)
  {
    if |pages| > 1 {
      var k := |pages| - 1;
      RowsAtLeastPages(pages[..k]);
      assert NextPageParam(pages[k - 1], pages[..k]).Some?;
    }
  }
}

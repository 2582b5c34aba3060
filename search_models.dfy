/** The record shapes of the search results the widget works with:
    filters, facets, result rows, promoted results and result blocks. */
module SearchModels {
  import opened Wrappers

  datatype FilterComparisonOperator = Eq | Neq | Gt | Lt | Geq | Leq | Contains

  /** One value of a refinement facet. `count` is `None` where the number is
      `NaN`; `operator` is `None` where it is left out. */
  datatype DataFilterResultValue = DataFilterResultValue(
    name: string,
    value: string,
    operator: Option<FilterComparisonOperator>,
    count: Option<int>)

  /** A refinement facet: a named filter dimension with its values. */
  datatype DataFilterResult = DataFilterResult(filterName: string, values: seq<DataFilterResultValue>)

  /** One result row: managed-property name to value. */
  type SearchResult = map<string, string>

  datatype PromotedResult = PromotedResult(url: string, title: string, description: string)

  datatype SearchResultBlock = SearchResultBlock(title: string, results: seq<SearchResult>)

  /** One page of normalised search results. */
  datatype SearchResults = SearchResults(
    queryModification: Option<string>,
    queryKeywords: string,
    relevantResults: seq<SearchResult>,
    secondaryResults: seq<SearchResultBlock>,
    refinementResults: seq<DataFilterResult>,
    promotedResults: Option<seq<PromotedResult>>,
    spellingSuggestion: Option<string>,
    totalRows: int)
}

# Power Search, modelled in Dafny

This project models the core of Power Search, a search dialog for SharePoint
sites that opens from a keyboard shortcut. It proves properties of that model.

The model covers four parts of the dialog:
- **Search hook:** merges the hook's configuration with the defaults, builds
  the request sent to the search service, and reshapes the service's raw
  answer into one page of results. It also decides whether another page is
  fetched and from which offset.
- **Dialog preferences:** the file-type selection with its "all" sentinel,
  the refinement filters derived from that selection or from the section
  being viewed, the order-independent cache key, and the sort order passed
  to the hook. It also covers the recent-search list, what is persisted in
  `localStorage` and read back, and the list of results across pages.
- **Keyboard-shortcut hook:** which keydown events trigger the callback, what
  the handler does to them, and the listeners it keeps on the document and
  the window across focus events and cleanup.
- **Results view:** the split of results into files, pages and other, the
  three-item preview per section, the site/path label and its 40-character
  cut, the author name, the "open in folder" address, and the menu of actions.

Files:

- `wrappers.dfy`: `Option` and `Result`.
- `seqs.dfy`: `filter`, `slice`, and the duplicate-free sequences that stand
  for JavaScript `Set`s (insertion-ordered).
- `text.dfy`: the JavaScript string primitives the code relies on:
  - `toLowerCase` (ASCII letters), `trim`, `split`, `join`;
  - `indexOf` / `lastIndexOf`;
  - `replace` of the first occurrence, and the global removal of a literal;
  - `parseInt(s, 10)`.
- `string_order.dfy`: the default `Array.prototype.sort` order on strings,
  and an insertion sort that is a function of the multiset it sorts.
- `search_models.dfy`: the result records of
  `src/extensions/powerSearch/models/sharepoint-search-results.ts`.
- `use_search.dfy`: the search hook (`use-search.tsx`).
- `power_search.dfy`: the dialog's state and rules (`power-search.tsx`).
  - A `Preferences` class holds the preferences and the storage map.
  - A `ViewState` class holds the section view.
- `keyboard_shortcut.dfy`: the keyboard-shortcut hook
  (`use-keyboard-shortcut.tsx`). A `ShortcutHook` class holds the listener
  lists.
- `search_results.dfy`: the results view (`search-results.tsx`).

How some JavaScript constructs are modelled:
- The service call is not modelled: its answer is a parameter (`QueryFn`
  takes it as an `Option<SearchResponse>`).
- Where the code would throw a `TypeError`, the model returns `Failure`.
- Parsing a URL is a parameter: `Some(ParsedUrl)` when `new URL` succeeds,
  `None` when it throws.
- The refinement filters are built as a small expression type and then
  rendered to the service's query-language text. This keeps the proofs about
  which filters are produced separate from the text they are written as.

Where the code behaves otherwise than its comments and names suggest, the model follows the code:
- The file-type filter list is empty when "all" is selected. It is also
  empty when the selection holds only tags that neither table knows, or
  nothing at all (`RefinementFiltersEmpty`).
- A query made only of whitespace is still fetched, because `enabled` tests
  only for the empty string (`WhitespaceQueryIsFetched`).
- The dialog sends "relevance" as "desc" and always names `LastModifiedTime`.
  So the request's sort list is never empty when it comes from the dialog
  (`WiredSortList`).
- `buildSearchQuery` ignores the `sortDirection` and `startRow` parameters.
  The direction comes from the sort-order argument, and the start row from
  the page parameter.
- The `"string;#"` prefix is removed at its first occurrence, wherever that
  is, not only at the start (`Text.ReplaceFirst`).
- An empty page that arrives while fewer rows than `totalRows` have been
  fetched leaves the next offset where it was: a next page is still
  offered, and it asks for the same rows again (`EmptyPageRepeatsOffset`).
  Termination of "Load more" is proved only when every page brings rows
  (`PaginationTerminates`).
- "Open in folder" removes the text "/Forms" wherever it occurs, also
  inside a longer segment name such as "/FormsLibrary"
  (`FormsInsideSegment`).
- `queryFn` reads `RawSearchResults` again after the guarded block.
  - A response without `RawSearchResults` therefore fails, instead of giving
    an empty page (`Throws`, `QueryFn`).
  - A primary result without a table fails.
  - So does a secondary result whose `RelevantResults` has no table.

## Model

| member | source | states |
|---|---|---|
| UseSearch.MergeConfig | src/extensions/powerSearch/hooks/use-search.tsx:17-54 | every one of the ten fields that is supplied overrides its default; each absent one takes the default (query template, highlighted properties Title, Path, Author, Filename, FileLeafRef and Description, the fixed source id, no duplicate trimming, summary length 300, row limit 50, and query rules, interleaving, best bets and favourites on) |
| UseSearch.MergeConfigExtremes | src/extensions/powerSearch/hooks/use-search.tsx:17-54 | merging nothing gives exactly the defaults; supplying every field gives exactly what was supplied |
| UseSearch.BuildSearchQuery | src/extensions/powerSearch/hooks/use-search.tsx:56-80 | the request carries the query text, the page offset and the filters ([] when absent); its sort list is empty iff the order is relevance; otherwise it is one entry on the given property (default LastModifiedTime), with direction 1 iff the order is "desc"; every configuration field is copied unchanged |
| UseSearch.SortOrderRoundTrip | src/extensions/powerSearch/hooks/use-search.tsx:64-72 | relevance, desc and asc are read back from the request's sort list: the sort list loses no information about the order |
| UseSearch.GetSearchResults | src/extensions/powerSearch/hooks/use-search.tsx:222-238 | one result per row, in order; each is the cell-by-cell fold of that row's cells |
| UseSearch.FoldIsTwoPass | src/extensions/powerSearch/hooks/use-search.tsx:226-232 | the fold equals a two-pass reading: first-non-empty-wins over the ordinary cells, then FileType taken from the last non-empty HtmlFileType cell, if any |
| UseSearch.FirstNonEmptyWins | src/extensions/powerSearch/hooks/use-search.tsx:229-231 | a key keeps the value of its first cell with a non-empty value |
| UseSearch.HtmlFileTypeWins | src/extensions/powerSearch/hooks/use-search.tsx:227-228 | the last non-empty HtmlFileType cell decides FileType, whatever FileType cells say |
| UseSearch.OtherKeysFromFirstPass | src/extensions/powerSearch/hooks/use-search.tsx:226-232 | every key other than FileType is decided by the first pass alone, both whether it is set and its value |
| UseSearch.FoldKeepsFirstNonEmpty | src/extensions/powerSearch/hooks/use-search.tsx:226-232 | in the fold itself, a key other than FileType and HtmlFileType holds the value of its first cell with a non-empty value |
| UseSearch.FacetValueReadsEntry | src/extensions/powerSearch/hooks/use-search.tsx:136-141 | an entry whose count is a decimal and whose value carries the "string;#" prefix gives that count, the bare name, the token, and the Contains operator |
| UseSearch.FacetValues | src/extensions/powerSearch/hooks/use-search.tsx:135-142 | one value per refinement entry, in order |
| UseSearch.GetFacetValues | src/extensions/powerSearch/hooks/use-search.tsx:134-142 | the loop pushing the values computes exactly the facet's values |
| UseSearch.GetRefinementResults | src/extensions/powerSearch/hooks/use-search.tsx:126-148 | one facet per refiner, in order, each named after its refiner |
| UseSearch.QueryModificationOf | src/extensions/powerSearch/hooks/use-search.tsx:110-119 | a query modification is reported iff exactly one QueryModification property is present, and it is that property's value |
| UseSearch.GetSecondaryResults | src/extensions/powerSearch/hooks/use-search.tsx:163-202 | fails iff some secondary result has relevant results without a table; otherwise gives every promoted result in order, and one block per secondary result with at least one row |
| UseSearch.GetPromotedResults | src/extensions/powerSearch/hooks/use-search.tsx:175-181 | one promoted result per special-term result, in order, carrying its title, address and description |
| UseSearch.QueryFn | src/extensions/powerSearch/hooks/use-search.tsx:91-206 | fails exactly in the cases where the code throws; otherwise: an empty page for the query when there is no primary result; else the rows, facets, total (0 when absent), the spelling suggestion only when non-empty, and the query modification; secondary results and promoted results are set only for a non-empty secondary list |
| UseSearch.NextPageParam | src/extensions/powerSearch/hooks/use-search.tsx:207-216 | the rule itself: a next page iff the rows fetched so far are fewer than the last page's total, starting at that count; its consequences are NextOffsetAdvances, PaginationTerminates and EmptyPageRepeatsOffset |
| UseSearch.WhitespaceQueryIsFetched | src/extensions/powerSearch/hooks/use-search.tsx:218 | a query of whitespace only is fetched |
| UseSearch.NextOffsetAdvances | src/extensions/powerSearch/hooks/use-search.tsx:207-216 | each page moves the next offset forward by its row count |
| UseSearch.RowsAtLeastPages | src/extensions/powerSearch/hooks/use-search.tsx:208-211 | non-empty pages hold at least one row each |
| UseSearch.PaginationTerminates | src/extensions/powerSearch/hooks/use-search.tsx:207-216 | when every page brings rows and reports the same total, at most `total` further pages are requested |
| UseSearch.EmptyPageRepeatsOffset | src/extensions/powerSearch/hooks/use-search.tsx:207-216 | an empty page returned while fewer rows than the total have been fetched gives back the same next offset, so the same page is requested again |
| Text.ParseIntRoundTrip | src/extensions/powerSearch/hooks/use-search.tsx:137 | parseInt reads back the decimal text of any integer, sign included, whatever non-digit text follows it |
| PowerSearch.RefinementFilterExprs | src/extensions/powerSearch/components/power-search.tsx:189-214 | no filter when "all" is selected; otherwise the per-tag filters, combined into one disjunction when there are several; never more than one |
| PowerSearch.RefinementFilters | src/extensions/powerSearch/components/power-search.tsx:189-217 | the rendered filters: none when "all" is selected, at most one |
| PowerSearch.RefinementFiltersEmpty | src/extensions/powerSearch/components/power-search.tsx:189-214 | the list is empty iff "all" is selected or no tag of either table is |
| PowerSearch.StandardFiltersCount | src/extensions/powerSearch/components/power-search.tsx:205-207 | at most one filter per table entry, and none iff no entry's tag is selected |
| PowerSearch.StandardFiltersBySet | src/extensions/powerSearch/components/power-search.tsx:205-207 | the standard-type filters depend only on which tags are selected |
| PowerSearch.RefinementFiltersBySet | src/extensions/powerSearch/components/power-search.tsx:200-214 | selections with the same tags give the same filters, whatever the insertion order |
| PowerSearch.StandardFiltersAppend | src/extensions/powerSearch/components/power-search.tsx:205-207 | the standard-type filters of a table split in two are those of the first part followed by those of the second: filters follow table order |
| PowerSearch.StandardFiltersOnly | src/extensions/powerSearch/components/power-search.tsx:205-207 | when exactly one table entry's tag is selected, the standard-type filters are that entry's type filter alone |
| PowerSearch.DocxFilter | src/extensions/powerSearch/components/power-search.tsx:193-198 | a tag with several extensions gives a disjunction of FileType equalities over them, in table order |
| PowerSearch.PageFilter | src/extensions/powerSearch/components/power-search.tsx:193-198 | a tag with one extension gives a bare FileType equality; "page" stands for "aspx" |
| PowerSearch.PdfAndImagesTags | src/extensions/powerSearch/components/power-search.tsx:200-210 | images come before pdf although pdf was selected first |
| PowerSearch.CombinedTagFilters | src/extensions/powerSearch/components/power-search.tsx:212-214 | two selected tags are combined into one disjunction |
| PowerSearch.SectionFilterExpr | src/extensions/powerSearch/components/power-search.tsx:276-289 | the files, pages and other sections have a filter; any other section has none |
| PowerSearch.SectionFilter | src/extensions/powerSearch/components/power-search.tsx:276-289 | at most one filter, and none iff the section is unknown |
| PowerSearch.SectionFiltersComplement | src/extensions/powerSearch/components/power-search.tsx:276-285 | files match docx, doc and pdf; pages match aspx and page; other is the negation of the disjunction of all five |
| PowerSearch.AllRefinementFiltersCases | src/extensions/powerSearch/components/power-search.tsx:219-228 | the section filter is sent iff a view is set and the section filter is non-empty; otherwise the type filters are; at most one filter either way |
| PowerSearch.RefinementKeyOrderIndependent | src/extensions/powerSearch/components/power-search.tsx:330-332 | two selections with the same tags give the same cache key |
| PowerSearch.WiredSortList | src/extensions/powerSearch/components/power-search.tsx:334-350 | the request sorts by LastModifiedTime in every case; newest first iff the order is relevance or desc; relevance and desc send the same request |
| PowerSearch.ToggleWellFormed | src/extensions/powerSearch/components/power-search.tsx:230-265 | after any click the selection is a non-empty set in which "all" appears only alone |
| PowerSearch.ToggleSentinelRules | src/extensions/powerSearch/components/power-search.tsx:236-253 | clicking "all" selects only "all"; deselecting the last tag falls back to "all"; selecting a sixth tag collapses to "all" |
| PowerSearch.ToggleTwiceRestores | src/extensions/powerSearch/components/power-search.tsx:244-252 | selecting and then deselecting a tag restores the selection, when it neither collapses nor empties |
| PowerSearch.ClicksAccumulate | src/extensions/powerSearch/components/power-search.tsx:250-255 | distinct tags clicked one after another accumulate in click order, and collapse to "all" at the sixth |
| PowerSearch.ClickEveryTagFromAll | src/extensions/powerSearch/components/power-search.tsx:230-265 | from "all", clicking the six tags in any order passes through each partial selection and ends at "all" |
| PowerSearch.AddToHistory | src/extensions/powerSearch/components/power-search.tsx:301-315 | a blank query changes nothing; otherwise the query comes first, appears once, the list holds at most six entries, and nothing new besides the query |
| PowerSearch.AddToHistoryKeepsOrder | src/extensions/powerSearch/components/power-search.tsx:305-308 | after the query come the earlier entries without it, in order, cut to fit six |
| PowerSearch.AddToHistoryNoDups | src/extensions/powerSearch/components/power-search.tsx:305-308 | a history without duplicates stays without duplicates |
| PowerSearch.AddToHistoryIdempotent | src/extensions/powerSearch/components/power-search.tsx:301-315 | searching the same query twice gives the same history as once |
| PowerSearch.RemoveFromHistory | src/extensions/powerSearch/components/power-search.tsx:317-328 | every copy of the query is removed; every other entry keeps its count (the order is kept, by RemoveFromHistoryKeepsOrder) |
| PowerSearch.RemoveFromHistoryKeepsOrder | src/extensions/powerSearch/components/power-search.tsx:317-328 | removal distributes over concatenation, so the remaining entries keep their order |
| PowerSearch.RemoveUndoesAdd | src/extensions/powerSearch/components/power-search.tsx:301-328 | removing a just-added new query restores a history shorter than six |
| PowerSearch.Dedup | src/extensions/powerSearch/components/power-search.tsx:125-126 | the restored set has no duplicates and the same members as the saved list |
| PowerSearch.DedupOfSet | src/extensions/powerSearch/components/power-search.tsx:125-126 | a saved list without duplicates is restored unchanged |
| PowerSearch.PersistedReloads | src/extensions/powerSearch/components/power-search.tsx:123-138 | the selection, sort order and history that the handlers write are read back unchanged |
| PowerSearch.Preferences.constructor | src/extensions/powerSearch/components/power-search.tsx:123-138 | the initial preferences are the saved ones, or "all", relevance and an empty history |
| PowerSearch.Preferences.HandleFileTypeClick | src/extensions/powerSearch/components/power-search.tsx:230-265 | the selection becomes the toggled one, is well formed, and is what is persisted; nothing else changes |
| PowerSearch.Preferences.HandleSortOrderChange | src/extensions/powerSearch/components/power-search.tsx:369-377 | the sort order becomes the new one and is persisted |
| PowerSearch.Preferences.AddToSearchHistory | src/extensions/powerSearch/components/power-search.tsx:301-315 | the history becomes AddToHistory of the old one; it is persisted unless the query is blank |
| PowerSearch.Preferences.RemoveFromSearchHistory | src/extensions/powerSearch/components/power-search.tsx:317-328 | the history loses the query and is persisted |
| PowerSearch.ViewState.constructor | src/extensions/powerSearch/components/power-search.tsx:114-121 | no view, not transitioning, start row 0, no section filter |
| PowerSearch.ViewState.HandleSectionClick | src/extensions/powerSearch/components/power-search.tsx:267-290 | the view becomes the section, the start row 0, and the section filter that section's (none for an unknown section) |
| PowerSearch.ViewState.HandleBackToSearch | src/extensions/powerSearch/components/power-search.tsx:292-299 | the view and section filter are cleared; the start row is kept |
| PowerSearch.ViewState.Filters | src/extensions/powerSearch/components/power-search.tsx:219-228 | while the state is consistent, at most one filter is sent |
| PowerSearch.ConcatPagesIsAllResults | src/extensions/powerSearch/components/power-search.tsx:352-361 | the reduce over pages gives the rows of all pages in order |
| PowerSearch.ShownResultsAreFetchedRows | src/extensions/powerSearch/components/power-search.tsx:352-361 | the list shown is what the hook counts, so the next page starts after the last result shown |
| StringOrder.SortOrderIndependent | src/extensions/powerSearch/components/power-search.tsx:332 | sorting gives the same list for any two orderings of the same elements |
| KeyboardShortcut.MatchesAny | src/extensions/powerSearch/hooks/use-keyboard-shortcut.tsx:84-98 | an event matches iff some combination matches it |
| KeyboardShortcut.HandleKeyDown | src/extensions/powerSearch/hooks/use-keyboard-shortcut.tsx:73-110 | an editable target or no match leaves the event untouched; the callback runs iff the target is not editable and some combination matches; it runs then exactly once, with preventDefault and stopPropagation as the options say, and the handler returns false |
| KeyboardShortcut.DefaultsPreventAndStop | src/extensions/powerSearch/hooks/use-keyboard-shortcut.tsx:58-62 | with no options both preventDefault and stopPropagation are applied |
| KeyboardShortcut.KeyCaseIgnored | src/extensions/powerSearch/hooks/use-keyboard-shortcut.tsx:85 | the case of the pressed key does not change whether it matches |
| KeyboardShortcut.UnspecifiedModifiersIgnored | src/extensions/powerSearch/hooks/use-keyboard-shortcut.tsx:86-93 | a modifier the combination leaves out matches either state |
| KeyboardShortcut.SpecifiedModifierChecked | src/extensions/powerSearch/hooks/use-keyboard-shortcut.tsx:86-87 | a required Ctrl that is not pressed never matches |
| KeyboardShortcut.OneIsListOfOne | src/extensions/powerSearch/hooks/use-keyboard-shortcut.tsx:64-66 | one combination behaves as a list holding it, and fires iff it matches an event outside an editable target |
| KeyboardShortcut.Added | src/extensions/powerSearch/hooks/use-keyboard-shortcut.tsx:115 | adding registers the listener without ever duplicating it |
| KeyboardShortcut.Removed | src/extensions/powerSearch/hooks/use-keyboard-shortcut.tsx:120 | removing leaves every other listener and not that one |
| KeyboardShortcut.Reattached | src/extensions/powerSearch/hooks/use-keyboard-shortcut.tsx:124-128 | remove-then-add leaves exactly one registration |
| KeyboardShortcut.ReattachedIdempotent | src/extensions/powerSearch/hooks/use-keyboard-shortcut.tsx:124-128 | a second focus event changes nothing more |
| KeyboardShortcut.FocusEventsCollapse | src/extensions/powerSearch/hooks/use-keyboard-shortcut.tsx:124-128 | any number of focus events leaves the same registrations as one |
| KeyboardShortcut.MountFocusCleanupRestores | src/extensions/powerSearch/hooks/use-keyboard-shortcut.tsx:112-139 | mounting, any number of focus events and cleanup give back the document's listeners as they were |
| KeyboardShortcut.ShortcutHook.AddKeydownListener | src/extensions/powerSearch/hooks/use-keyboard-shortcut.tsx:114-116 | the document's listeners become Added of the old ones; nothing else changes |
| KeyboardShortcut.ShortcutHook.RemoveKeydownListener | src/extensions/powerSearch/hooks/use-keyboard-shortcut.tsx:119-121 | the document's listeners become Removed of the old ones; nothing else changes |
| KeyboardShortcut.ShortcutHook.Mount | src/extensions/powerSearch/hooks/use-keyboard-shortcut.tsx:130-132 | afterwards the keydown handler is registered exactly once and the focus handler is registered |
| KeyboardShortcut.ShortcutHook.HandleWindowFocus | src/extensions/powerSearch/hooks/use-keyboard-shortcut.tsx:124-128 | afterwards the keydown handler is registered exactly once, whatever came before |
| KeyboardShortcut.ShortcutHook.Cleanup | src/extensions/powerSearch/hooks/use-keyboard-shortcut.tsx:135-138 | afterwards neither listener is registered, and the others are kept |
| KeyboardShortcut.ShortcutHook.DispatchKeyDown | src/extensions/powerSearch/hooks/use-keyboard-shortcut.tsx:73-110 | a keydown is handled iff the listener is registered; the callback count grows by what the handler did |
| KeyboardShortcut.Lifecycle | src/extensions/powerSearch/hooks/use-keyboard-shortcut.tsx:112-139 | once mounted and after a focus event, a keydown fires the callback once iff it matches outside an editable target; after cleanup nothing fires |
| SearchResultsView.ExactlyOneSection | src/extensions/powerSearch/components/search-results.tsx:568-579 | every result is in exactly one of files, pages and other; without a FileType it is in other |
| SearchResultsView.SectionsPartition | src/extensions/powerSearch/components/search-results.tsx:568-579 | together the three sections hold every result exactly once |
| SearchResultsView.RenderSection | src/extensions/powerSearch/components/search-results.tsx:581-602 | a section shows the first three of its results (all when fewer) and counts all of them |
| SearchResultsView.Render | src/extensions/powerSearch/components/search-results.tsx:554-611 | nothing without a query; a skeleton while loading with no data; "no results" when done with no data; sections whenever there is data |
| SearchResultsView.RenderedSections | src/extensions/powerSearch/components/search-results.tsx:606-611 | files, pages and other appear in that order and only when non-empty; one to three sections, each counting at least one result and showing at most three |
| SearchResultsView.RenderedCounts | src/extensions/powerSearch/components/search-results.tsx:568-611 | the section counts add up to the number of results |
| SearchResultsView.SiteIndex | src/extensions/powerSearch/components/search-results.tsx:251-253 | the index of the first "sites"/"teams" segment, ignoring case, or -1 |
| SearchResultsView.SiteNameCases | src/extensions/powerSearch/components/search-results.tsx:247-261 | the site name is the non-empty segment after the first marker, or the host name up to its first dot |
| SearchResultsView.SitePathLabel | src/extensions/powerSearch/components/search-results.tsx:360-362 | "site - path" when the site name is non-empty, else the path; empty without a path |
| SearchResultsView.Displayed | src/extensions/powerSearch/components/search-results.tsx:427-429 | never over 40 characters; a longer label shows its first 37 characters and "..." |
| SearchResultsView.AuthorNameBetweenBars | src/extensions/powerSearch/components/search-results.tsx:410-412 | with a '\|' the result is the trimmed text between the first two bars; without one, the input |
| SearchResultsView.FolderPathDecomposes | src/extensions/powerSearch/components/search-results.tsx:282-287 | the fallback returns the text before the last '/', the input without any '/' |
| SearchResultsView.OpenFolderPath | src/extensions/powerSearch/components/search-results.tsx:370 | removing "/Forms" never lengthens the folder path; which text goes is stated by RemoveAllFirstOccurrence |
| SearchResultsView.OpenFolderTarget | src/extensions/powerSearch/components/search-results.tsx:367-378 | the opened address starts with the folder path without "/Forms"; "?q=" and the encoded file name follow it, or nothing when encoding throws |
| SearchResultsView.OpenFolderDropsForms | src/extensions/powerSearch/components/search-results.tsx:370 | a folder path ending in a single "/Forms" loses exactly that; one without "/Forms" is unchanged |
| Text.RemoveAllAbsent | src/extensions/powerSearch/components/search-results.tsx:370 | removing every occurrence of a pattern from a text that has none leaves the text unchanged |
| SearchResultsView.RemoveAllSuffix | src/extensions/powerSearch/components/search-results.tsx:370 | a text free of the pattern followed by one occurrence of it loses exactly that occurrence |
| SearchResultsView.RemoveAllFirstOccurrence | src/extensions/powerSearch/components/search-results.tsx:370 | the global removal keeps the text before the first occurrence, drops that occurrence, and goes on with the rest |
| SearchResultsView.FormsInsideSegment | src/extensions/powerSearch/components/search-results.tsx:370 | "/Forms" is also cut out of a longer segment name: "/FormsLibrary" becomes "Library" |
| SearchResultsView.MenuActions | src/extensions/powerSearch/components/search-results.tsx:481-500 | View is offered iff the result is a page; the other actions always |

## Left out

- The search service call, the client singletons and the pnpjs wiring: the raw response is a parameter of `QueryFn`.
- Query caching, request batching, `keepPreviousData` and the 300 ms debounce: these are library behaviour and timing. Only the next-offset and enabled rules are modelled.
- The extension's lifecycle and mounting, JSX, styles, the document viewer, dates (`formatDate`), hit highlighting (`highlightSearchTerms`), and the dialog's open/close and hover state.
- URL parsing: `new URL` is a parameter, as described above.
- `window.open` and `encodeURIComponent`: the encoded file name is a parameter of `OpenFolderTarget`, and `None` stands for an encoder that throws. A `window.open` that throws, which also leads to the catch branch, is not modelled.
- JSON encoding in `localStorage`: a stored value is a list or a string. A saved value of the wrong shape falls back to the default, where the code would use it as it is.
- DOM dispatch beyond the one document: capture versus bubbling order, other handlers and `return false` semantics. The handler's returned value is recorded only.
- The model does not recompute the listeners when the hook's dependencies change.
- `toLowerCase` maps ASCII letters only. Lengths, and the sort order of `sort()`, are counted in characters, not UTF-16 code units.
- `null`/`undefined` cell values are treated as "". Like them, "" is falsy, so the fold treats all three alike.
- `section as keyof typeof sectionFilters` also finds `"default"` and the object's inherited keys. In the model only "documents", "pages" and "other" have filters, and every other section has none.
- `parseInt` returns a double: very large counts lose precision in the code but not in the model, and `NaN` is `None`.
- UseSearch.MergeConfig: a field passed explicitly as `undefined` overrides the default in the code; the model treats it as absent.
- UseSearch.BuildSearchQuery: `SEARCH_PROPERTIES` is defined outside the hook; it is a parameter.
- UseSearch.MergeConfig: the ranking structure of the default query template (which XRANK boosts apply to which field) is kept as the literal string and not analysed.
- PowerSearch.SectionFilter: the section filters are proved equal to the filter expressions `or(…)` over the document extensions, over the page extensions, and `not(or(…))` over both (`SectionFiltersComplement`). That `Render` turns these into exactly the three literal strings of the dialog is not proved: the equality of the long literals with `Render`'s output does not verify in reasonable time.
- The cell fold's `!result[item.Key]` also sees the inherited members of a JavaScript object, so the code never stores a cell whose key is `constructor`, `toString` or another `Object.prototype` name. The model stores such a cell like any other.
- PowerSearch.RefinementFilters: the rendered text is produced by `Render`, but the exact strings for concrete selections are proved only at the level of the filter expressions.
- KeyboardShortcut.Lifecycle: shows a single focus event. `FocusEventsCollapse` and `HandleWindowFocus`'s contract cover any number of them.

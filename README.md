# Repository catalog query pipeline (Codantix UI)

A Dafny model of the client-side logic of the Codantix repository catalog page
and of its multi-select filter control.

- **Facets.** The page derives the team and language filter options from the
  fetched repositories. `getUnique` collects the values into a `Set`, which
  drops repeats, and then sorts them with the default `Array.prototype.sort()`
  order (module `Facets`).
- **Filter.** A repository is shown when all three tests hold. Its lower-cased
  name or summary includes the lower-cased search text. Its team is selected,
  or no team is. Its language is selected, or no language is. Filtering keeps
  the catalog order (module `Filter`).
- **Pagination.** Pages hold eight repositories. There are
  `max(1, ceil(n / 8))` pages. The current page is the raw
  `slice((page - 1) * 8, page * 8)`, and nothing clamps the page number
  (module `Pagination`).
- **Page state.** The page number starts at 1. Any change of search text or of
  either filter resets it to 1. Previous and Next move it and clamp it to
  `[1, totalPages]` (class `CatalogPage.CatalogPage`).
- **Multi-select.** Toggling a selected value removes all its occurrences, and
  toggling an unselected value appends it. Clear empties the selection. A chip
  shows the label of the first option with that value, or the raw value when
  there is no such option or its label is empty (module `MultiSelect`).

The JavaScript string operations involved are modelled in module `JsString`:
`toLowerCase` (ASCII letters only), `includes`, and the default sort order
(character by character, a proper prefix first). Module `Fixture` holds the
four records served by the mock endpoint and the facets and search results
derived from them.

Points where the model follows the code exactly:

- The slice at `app/repositories/page.tsx:48` does not clamp the page: it
  starts at `(page - 1) * 8` as requested, so page 5 of nine results is empty
  (`Fixture.NineResultsScenario`). The page number stays in range only
  because the buttons clamp it (`Pagination.NavigationStaysInRange`).
- The record `id` is a string in `app/repositories/types.ts` and a number in
  the mock data. The fixture uses the strings `"1"` to `"4"`.

`label` is a reserved word in Dafny, so the option's `label` field is named
`labelText` in `MultiSelect.SelectOption`.

## Model

| member | source | states |
|---|---|---|
| JsString.ToLower | app/repositories/page.tsx:38-39 | `toLowerCase` keeps the length, turns every ASCII capital into its own small letter (32 code points above it), leaves no ASCII capital, and leaves every other character unchanged |
| JsString.ToLowerIdempotent | app/repositories/page.tsx:38-39 | lower-casing an already lower-cased string changes nothing |
| JsString.IncludesEmpty | app/repositories/page.tsx:38-39 | every string includes the empty search text |
| JsString.Includes | app/repositories/page.tsx:38-39 | definition: `includes` holds when the needle occurs at some index of the string |
| JsString.LexLess | app/repositories/page.tsx:11 | definition: the default `sort()` order, character by character, a proper prefix first |
| JsString.LexLessIrreflexive | app/repositories/page.tsx:11 | no string sorts before itself |
| JsString.LexLessTransitive | app/repositories/page.tsx:11 | the default sort order is transitive |
| JsString.LexLessTotal | app/repositories/page.tsx:11 | any two different strings are ordered one way or the other |
| JsString.LexLessAsymmetric | app/repositories/page.tsx:11 | two strings are never each before the other |
| JsString.LexLeqTransitive | app/repositories/page.tsx:11 | the non-strict sort order is transitive |
| Seqs.NoDuplicatesMultiplicity | app/repositories/page.tsx:11 | a list has no duplicates exactly when every value occurs at most once in it |
| Seqs.PermutationKeepsNoDuplicates | app/repositories/page.tsx:11 | rearranging a duplicate-free list, as sorting does, keeps it duplicate-free |
| Facets.TeamOwners | app/repositories/page.tsx:31 | definition: `repositories.map(r => r.teamOwner)` |
| Facets.PrimaryLanguages | app/repositories/page.tsx:32 | definition: `repositories.map(r => r.primaryLanguage)` |
| Facets.Dedupe | app/repositories/page.tsx:11 | `new Set(arr)` holds no duplicates, holds exactly the values of `arr`, and is no longer than `arr` |
| Facets.Insert | app/repositories/page.tsx:11 | definition: one step of the sort, placing a value before the first entry it does not exceed |
| Facets.Sort | app/repositories/page.tsx:11 | definition: `sort()` with the default order, as an insertion sort |
| Facets.InsertPermutes | app/repositories/page.tsx:11 | inserting into a sorted list adds exactly the inserted value |
| Facets.InsertSorted | app/repositories/page.tsx:11 | inserting into a sorted list keeps it sorted |
| Facets.SortPermutes | app/repositories/page.tsx:11 | `sort()` returns a permutation of its input |
| Facets.SortSorted | app/repositories/page.tsx:11 | `sort()` returns a list in ascending order |
| Facets.GetUnique | app/repositories/page.tsx:11 | `getUnique` is strictly ascending (sorted, no duplicates), holds exactly the input's values, and is no longer than the input |
| Facets.StrictlySortedUnique | app/repositories/page.tsx:11 | two strictly ascending lists with the same elements are equal |
| Facets.GetUniqueIsCanonical | app/repositories/page.tsx:11 | any strictly ascending list with exactly the input's values is `getUnique` of it |
| Facets.StrictlySortedHasNoDuplicates | app/repositories/page.tsx:11 | a strictly ascending facet list is sorted and has no duplicates |
| Facets.AllTeams | app/repositories/page.tsx:31 | `allTeams` is strictly ascending; a team is in it iff some repository has that owner; no repositories give no teams |
| Facets.AllLangs | app/repositories/page.tsx:32 | `allLangs` is strictly ascending; a language is in it iff some repository has it as primary language; no repositories give no languages |
| Filter.MatchesSearch | app/repositories/page.tsx:37-39 | definition: the lower-cased name or the lower-cased summary includes the lower-cased search text |
| Filter.SearchIgnoresCase | app/repositories/page.tsx:37-39 | two search texts that agree once lower-cased match exactly the same repositories |
| Filter.SearchLowered | app/repositories/page.tsx:37-39 | a repository matches a search text iff it matches the lower-cased text |
| Filter.Selected | app/repositories/page.tsx:40-41 | definition: an empty selection admits every value, otherwise the value must be selected |
| Filter.Matches | app/repositories/page.tsx:37-42 | definition: `matchesSearch && matchesTeam && matchesLang` |
| Filter.Filtered | app/repositories/page.tsx:35-44 | a repository is in `filtered` iff it is in the catalog and matches search AND team AND language; `filtered` is a subsequence of the catalog |
| Filter.FilteredMultiplicity | app/repositories/page.tsx:35-44 | a matching repository is kept as many times as it occurs, and a non-matching one is dropped |
| Filter.FilteredAppend | app/repositories/page.tsx:36 | filtering a concatenation is the concatenation of the filtered parts, so relative order is kept |
| Filter.FilteredAllMatch | app/repositories/page.tsx:36 | when every repository matches, filtering returns the catalog unchanged |
| Filter.FilteredIdempotent | app/repositories/page.tsx:35-44 | filtering `filtered` again with the same criteria gives `filtered` |
| Filter.NoCriteriaKeepsAll | app/repositories/page.tsx:37-42 | empty search text and two empty selections give the whole catalog, in order |
| Filter.SearchOnly | app/repositories/page.tsx:37-39 | the search-only list holds exactly the catalog entries whose name or summary matches the search |
| Filter.EmptySelectionsSearchOnly | app/repositories/page.tsx:40-41 | with both selections empty, the filter is the search-only filter |
| Pagination.TotalPages | app/repositories/page.tsx:47 | `totalPages >= 1`; it is 1 for no results, and otherwise the least `t` with `n <= 8t` |
| Pagination.SliceIndex | app/repositories/page.tsx:48 | `slice` counts a negative index from the end and clamps every index into `[0, length]` |
| Pagination.Slice | app/repositories/page.tsx:48 | definition: `slice(start, end)` is the entries between the two resolved indices, or none when they cross |
| Pagination.Paginate | app/repositories/page.tsx:48 | `paginated` has at most 8 entries; for `page >= 1` it is `filtered[min((page-1)*8, n) .. min(page*8, n)]`, and it is empty once the start is past the end |
| Pagination.PageNonEmpty | app/repositories/page.tsx:47-48 | for non-empty results, every page from 1 to `totalPages` is non-empty |
| Pagination.PagesPrefix | app/repositories/page.tsx:48 | pages 1 to k together are the first `min(8k, n)` results |
| Pagination.PagesCoverList | app/repositories/page.tsx:47-48 | pages 1 to `totalPages`, concatenated in order, are exactly `filtered` |
| Pagination.PreviousPage | app/repositories/page.tsx:106 | definition: `Math.max(1, p - 1)` |
| Pagination.NextPage | app/repositories/page.tsx:116 | definition: `Math.min(totalPages, p + 1)` |
| Pagination.Navigate | app/repositories/page.tsx:106-116 | definition: the page reached by a sequence of Previous and Next presses |
| Pagination.NavigationStaysInRange | app/repositories/page.tsx:106-116 | from a page in `[1, totalPages]`, any sequence of Previous and Next presses stays in `[1, totalPages]` |
| Pagination.PreviousStep | app/repositories/page.tsx:106 | Previous gives `max(1, page - 1)` and stays in range |
| Pagination.NextStep | app/repositories/page.tsx:116 | Next gives `min(totalPages, page + 1)` and lands in range, even from beyond the last page |
| CatalogPage.CatalogPage.constructor | app/repositories/page.tsx:14-21 | the page starts with no repositories, no criteria and page 1 |
| CatalogPage.CatalogPage.SetRepositories | app/repositories/page.tsx:24-25 | storing the fetched list changes only the list and does not reset the page number |
| CatalogPage.CatalogPage.SetSearch | app/repositories/page.tsx:51 | new search text resets the page to 1; setting the same text changes nothing |
| CatalogPage.CatalogPage.SetTeamFilter | app/repositories/page.tsx:51 | a new team selection resets the page to 1, which is in range |
| CatalogPage.CatalogPage.SetLangFilter | app/repositories/page.tsx:51 | a new language selection resets the page to 1, which is in range |
| CatalogPage.CatalogPage.Previous | app/repositories/page.tsx:106 | Previous sets `page := max(1, page - 1)`, never below 1, and keeps the page in range |
| CatalogPage.CatalogPage.Next | app/repositories/page.tsx:116 | Next sets `page := min(totalPages, page + 1)`, which is always in range afterwards |
| CatalogPage.CatalogPage.AllTeams | app/repositories/page.tsx:31 | the team facet of the current list is strictly ascending and holds exactly the teams owning some repository |
| CatalogPage.CatalogPage.AllLangs | app/repositories/page.tsx:32 | the language facet of the current list is strictly ascending and holds exactly the primary languages of some repository |
| CatalogPage.CatalogPage.Filtered | app/repositories/page.tsx:35-44 | the shown list holds exactly the fetched repositories matching the current criteria, in catalog order |
| CatalogPage.CatalogPage.TotalPages | app/repositories/page.tsx:47 | at least one page; one page for no results, otherwise the least count of eight-entry pages that holds them |
| CatalogPage.CatalogPage.Paginated | app/repositories/page.tsx:48 | the current page has at most eight entries, and is non-empty when the page is in range and there are results |
| MultiSelect.Without | app/repositories/BrandedMultiSelect.tsx:39 | `value.filter(v => v !== x)` contains no `x`, keeps every other value as often as before, and keeps their order |
| MultiSelect.Toggle | app/repositories/BrandedMultiSelect.tsx:37-43 | a selected value loses every occurrence and the rest keep their order and counts; an unselected value is appended after the unchanged old entries; only the toggled value's membership flips |
| MultiSelect.ClearAll | app/repositories/BrandedMultiSelect.tsx:45 | clearing leaves no value selected, whatever the selection was |
| MultiSelect.ToggleKeepsNoDuplicates | app/repositories/BrandedMultiSelect.tsx:37-43 | a duplicate-free selection stays duplicate-free under a toggle |
| MultiSelect.WithoutAbsent | app/repositories/BrandedMultiSelect.tsx:39 | removing a value that is not selected changes nothing |
| MultiSelect.WithoutAppend | app/repositories/BrandedMultiSelect.tsx:39 | removing a value from a concatenation removes it from each part |
| MultiSelect.ToggleTwiceAbsent | app/repositories/BrandedMultiSelect.tsx:37-43 | toggling an unselected value twice restores the selection exactly |
| MultiSelect.ToggleTwicePresent | app/repositories/BrandedMultiSelect.tsx:37-43 | toggling a selected value twice moves it to the end, once |
| MultiSelect.FindIndex | app/repositories/BrandedMultiSelect.tsx:63 | `options.find` picks the first option with the value, or none when no option has it |
| MultiSelect.ChipLabel | app/repositories/BrandedMultiSelect.tsx:63-66 | the chip shows the first matching option's label, or the raw value when no option matches or that label is empty |
| MultiSelect.FacetOptions | app/repositories/page.tsx:71 | the options built from a facet list have each facet as both label and value |
| MultiSelect.FacetChipShowsValue | app/repositories/page.tsx:80 | on the catalog page every chip shows the selected value itself |
| Fixture.TeamFacetsScenario | app/api/repositories/route.ts:3-63 | the team facet of the mock catalog is `["AI Team", "DevOps", "Frontend", "Platform"]` |
| Fixture.LanguageFacetsScenario | app/api/repositories/route.ts:10-63 | the language facet of the mock catalog is `["Python", "Shell", "TypeScript"]` |
| Fixture.TeamAndLanguageScenario | app/api/repositories/route.ts:10-63 | team Platform with language Python leaves only codantix-backend |
| Fixture.SearchAiScenario | app/api/repositories/route.ts:10-63 | the search "ai" matches only codantix-ai, by its name |
| Fixture.NineResultsScenario | app/repositories/page.tsx:47-48 | nine results give two pages, page 2 holds the ninth, and page 5 is empty because it is not clamped |

## Left out

- `app/chat/page.tsx` is not part of this model. It depends on local storage, random identifiers, JSON parsing and a randomly delayed simulated reply, so it has no pure core.
- `app/repositories/api.ts` (the `fetch` wrapper) and the `GET` handler of `app/api/repositories/route.ts` are network I/O. The fetched list enters the model as the argument of `SetRepositories`, and the mock records serve only as the fixture.
- The loading and error flags (`app/repositories/page.tsx:15-16`, `:26-27`) come from the asynchronous fetch and are not modelled.
- The presentational components (`RepositoryCard.tsx`, `RepositoryDetailModal.tsx`, `Toolbar.tsx`, `ClientLayout.tsx`) and the selected-repository modal state (`app/repositories/page.tsx:17`) only lay out JSX.
- The multi-select's open flag and its outside-click listener (`BrandedMultiSelect.tsx:23-35`) are DOM event plumbing.
- The pagination controls are shown only for more than eight results, and each button is disabled at its end (`app/repositories/page.tsx:102`, `:107`, `:117`). `Previous` and `Next` model the click handlers. At either end a click would not change the page anyway.
- JsString.ToLower: maps only the ASCII capitals, not the full Unicode case mapping of `toLowerCase`.
- JsString.LexLess: compares Dafny characters (Unicode scalar values), not the UTF-16 code units that `sort()` compares. The two orders differ only for characters outside the Basic Multilingual Plane.
- Facets.Dedupe: does not promise the first-occurrence order of a `Set`, because the sort that follows ignores it.
- React's render and effect timing is not modelled. The reset at `app/repositories/page.tsx:51` applies one render after a filter change; the model applies it in the same step.
- React compares effect dependencies by identity. The multi-select always passes a newly built array, so the model resets the page on every `SetTeamFilter` and `SetLangFilter`, even when the contents are equal.
- CatalogPage.CatalogPage.SetRepositories: keeps the page number without promising it is in range for the new list. The fetch runs once, at mount, before any page change is possible, so the page is then 1, and the contract states that page 1 is in range.

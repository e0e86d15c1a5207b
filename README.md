# Weather app: city browser, pinned-city dashboard and weather page

A model of the three React components of a small weather application, together with
proofs about it:

- `CityTable` browses a city-search API. It loads pages of 50 records as the user scrolls
  (infinite scroll through an intersection observer) and filters the loaded cities by a
  case-insensitive substring of their name. A server-side search replaces the list, and
  the list can be sorted by name, country, timezone or population, ascending or
  descending.
- `Dashboard` shows the cities pinned in the browser's `localStorage` under the key
  `"dashboardCities"`. It reads them once when it mounts, and every Remove button splices
  its row out and writes the whole list back.
- `WeatherPage` fetches the current weather and a forecast for one city. It renders a
  loading, error, no-data or content view, and it picks a background video from the first
  weather description.

Files:

- `wrappers.dfy`: `Option`.
- `text.dfy`: the JavaScript string operations the components use. These are `trim`
  (ECMAScript white space and line terminators), `toLowerCase` and `includes`.
- `sorting.dfy`: `Array.prototype.sort` with a comparator, as the stable sort ECMAScript
  requires. Proved:
  - its output is sorted and a permutation of its input;
  - it keeps elements the comparator finds equal in their order;
  - it is the only sequence with these three properties. From this follow idempotence and
    the fact that a prior sort with the same ties is forgotten.
- `cities.dfy`: the `City` entity, the API record and the mapping between them.
- `city_table.dfy`:
  - the page window, the fetch result and the footer;
  - the name filter and the comparator;
  - the sort-button state machine;
  - the class `CityBrowser`, which holds the component's state. Its methods are the
    effects and handlers.
- `dashboard.dfy`:
  - `Storage` for `localStorage`: a map of slots that throws when storage is unavailable;
  - reading the slot;
  - JavaScript `splice(start, 1)`;
  - the class `PinnedCities`, which holds the component's state.
- `weather_page.dfy`: the video switch and its reference table, the view precedence, and
  the state after the fetch.

The things the components take from their environment are parameters of the model:

- an API reply (`Reply`, `FetchOutcome`);
- the storage's contents and availability;
- `String.prototype.localeCompare`, an abstract `Collation`. It is required only to be
  consistent: sign-antisymmetric, with `<= 0` transitive.

Where the behaviour differs from what one might expect, the model follows the code:

- The filter trims the query only to decide whether to filter at all. The substring test
  uses the untrimmed query.
- A search reply whose body has no `records` array leaves the previous list in place, with
  no alert.
- `if (sortBy)` treats the empty column name as "no sort".
- An unknown column makes every pair equal, so the list keeps its order.
- The weather page never clears `error`. An empty error message is falsy and falls through
  to the later checks. When a reply is missing the page shows "no data"; this is always
  the case after the first fetch. Otherwise it shows the content from the last successful
  fetch.
- The dashboard updates its state before it writes to storage. When `setItem` throws, the
  state has changed but storage has not.
- `fetchCityData` catches every failure and yields an empty batch. The `catch` and `alert`
  in `loadData` can therefore never run, and a failed request ends paging exactly like an
  empty page.

## Model

| member | source | states |
|---|---|---|
| Cities.RecordRoundTrip | src/Components/CityTable.tsx:46-51 | the record-to-city mapping renames `cou_name_en` and loses nothing: record → city → record and city → record → city are identities |
| Cities.ToCity | src/Components/CityTable.tsx:46-51 | the city built from a record maps back to that record: the renaming of `cou_name_en` loses nothing |
| Cities.MapRecords | src/Components/CityTable.tsx:46-51 | one city per record, in the same order, each the image of its record |
| Text.LeadingEnd | src/Components/CityTable.tsx:175 | the index where leading white space ends: everything before it is white space and the character at it is not |
| Text.TrailingStart | src/Components/CityTable.tsx:175 | the index where trailing white space starts, symmetrically |
| Text.Trim | src/Components/CityTable.tsx:175 | the trimmed text is no longer than the input and neither starts nor ends with white space |
| Text.TrimIsInnerSlice | src/Components/CityTable.tsx:175 | `trim` returns the slice of the input between the first and last non-white-space characters |
| Text.TrimEmptyIffBlank | src/Components/CityTable.tsx:118 | `trim()` is empty exactly when every character is white space |
| Text.TrimIdempotent | src/Components/CityTable.tsx:175 | trimming a trimmed string changes nothing |
| Text.ToLower | src/Components/CityTable.tsx:120 | same length; no upper-case Latin letter is left, each becomes its lower-case letter, every other character is kept |
| Text.ToLowerIdempotent | src/Components/CityTable.tsx:120 | lower-casing twice equals lower-casing once |
| Text.Contains | src/Components/CityTable.tsx:120 | the empty needle is always found, and a needle is only found in a haystack at least as long |
| Text.ContainsIffOccurrence | src/Components/CityTable.tsx:120 | `includes` holds exactly when the needle occurs at some position of the haystack |
| CityTable.PageWindow | src/Components/CityTable.tsx:33-35 | a page asks for 50 rows, starting at a non-negative offset for pages from 1 on |
| CityTable.ConsecutivePagesAdjacent | src/Components/CityTable.tsx:33-39 | page p+1 starts where page p ends |
| CityTable.PageOfIndex | src/Components/CityTable.tsx:33-39 | every record position lies in the window of exactly one page: no overlap, no gap |
| CityTable.FetchCityData | src/Components/CityTable.tsx:30-59 | the batch is empty exactly when the request threw, the body had no records array, or the array was empty; otherwise it maps the records one to one |
| CityTable.CanLoad | src/Components/CityTable.tsx:80 | a load starts only when more may come, and never while one is in flight |
| CityTable.FooterFor | src/Components/CityTable.tsx:329-336 | the scroll sentinel is shown exactly when a load may start; "No more cities" exactly when idle with nothing more |
| CityTable.NameMatches | src/Components/CityTable.tsx:120 | a city matches exactly when the lower-cased query occurs at some position of its lower-cased name |
| CityTable.KeepMatching | src/Components/CityTable.tsx:119-121 | keeps every matching city, each as often as before, drops every other, and keeps the order |
| CityTable.FilterCities | src/Components/CityTable.tsx:114-126 | a blank query leaves the list unchanged; otherwise exactly the cities whose lower-cased name contains the lower-cased query, with multiplicities, in order |
| CityTable.FilterIgnoresQueryCase | src/Components/CityTable.tsx:118-120 | filtering by the lower-cased query gives the same list as filtering by the query |
| CityTable.Compare | src/Components/CityTable.tsx:137-162 | text columns compare by the collation of their field, population by magnitude (smaller first ascending, larger first descending, equal only when equal), reversed for "desc"; any other column finds all cities equal |
| CityTable.Directed | src/Components/CityTable.tsx:141-158 | the direction factor keeps a comparison's zero and flips its sign for "desc" |
| CityTable.DescendingReverses | src/Components/CityTable.tsx:139-161 | for every column, "desc" answers the negation of "asc" |
| CityTable.ComparatorConsistent | src/Components/CityTable.tsx:137-162 | with a consistent `localeCompare` the comparator is consistent for every column and direction |
| CityTable.SortActive | src/Components/CityTable.tsx:135 | `null` and the empty column name leave the list unsorted; any other column sorts it |
| CityTable.SortCities | src/Components/CityTable.tsx:134-166 | with a column set: a permutation of the list, sorted by the comparator, equal cities in their previous order; without one: the list unchanged |
| CityTable.SortCitiesIdempotent | src/Components/CityTable.tsx:132-169 | re-running the sort effect on its own output gives the same contents each time |
| CityTable.UnknownColumnKeepsOrder | src/Components/CityTable.tsx:161 | an unrecognised column leaves the list in its order |
| CityTable.ToggleTwiceRestoresOrder | src/Components/CityTable.tsx:134-166 | from either direction, sorting the other way and then back gives the first sort's order again |
| CityTable.Flip | src/Components/CityTable.tsx:214 | toggling always gives the other direction |
| CityTable.NextSort | src/Components/CityTable.tsx:212-219 | the pressed column becomes the sort column; pressing the current one flips the direction, another one starts ascending |
| CityTable.SortToggleInvolution | src/Components/CityTable.tsx:212-219 | two presses on the current column restore the sort state |
| CityTable.CityBrowser.constructor | src/Components/CityTable.tsx:16-23 | the initial state: no cities, not loading, more to come, page 1, empty query, no sort, ascending |
| CityTable.CityBrowser.LoadData | src/Components/CityTable.tsx:64-83 | when more may come and nothing is loading: requests the current page's window (at a non-negative offset), appends the batch, records whether it was non-empty and ends not loading; otherwise changes nothing |
| CityTable.CityBrowser.OnIntersection | src/Components/CityTable.tsx:92-96 | the page advances by one exactly when the sentinel intersects and more may come; nothing else changes |
| CityTable.CityBrowser.ApplyFilter | src/Components/CityTable.tsx:112-129 | the filtered list becomes the filter of the cities by the current query |
| CityTable.CityBrowser.ApplySort | src/Components/CityTable.tsx:132-169 | the filtered list becomes its sort by the current column and direction |
| CityTable.CityBrowser.HandleSearchInputChange | src/Components/CityTable.tsx:172-209 | the query becomes the trimmed input; a blank one clears the list; otherwise the reply's cities replace the list, a reply without records or a failed request leaves it, an alert is raised exactly on failure, and loading ends false |
| CityTable.CityBrowser.HandleSortChange | src/Components/CityTable.tsx:212-219 | the sort state becomes `NextSort` of the old one |
| Sorting.Insert | src/Components/CityTable.tsx:137-162 | inserting adds exactly one element |
| Sorting.SortBy | src/Components/CityTable.tsx:137-162 | the sort is a permutation of its input |
| Sorting.SortBySorted | src/Components/CityTable.tsx:137-162 | with a consistent comparator the output is sorted |
| Sorting.SortByStable | src/Components/CityTable.tsx:137-162 | elements the comparator finds equal keep their relative order |
| Sorting.SortedStableUnique | src/Components/CityTable.tsx:137-162 | two sorted, stable permutations of the same list are equal |
| Sorting.SortByIdempotent | src/Components/CityTable.tsx:137-164 | sorting a sorted list changes nothing |
| Sorting.SortByForgetsPriorSort | src/Components/CityTable.tsx:137-164 | after a sort by a comparator with the same ties, sorting gives what sorting the original gives |
| Sorting.SortByAllEqualIsIdentity | src/Components/CityTable.tsx:161 | a comparator that finds every pair equal leaves the list as it is |
| Dashboard.Storage.GetItem | src/Components/Dashboard.tsx:21 | throws exactly when storage is unavailable; otherwise returns the slot's content if there is one |
| Dashboard.Storage.SetItem | src/Components/Dashboard.tsx:39 | throws exactly when storage is unavailable; otherwise replaces the one slot |
| Dashboard.Truthy | src/Components/Dashboard.tsx:22 | the empty text is the one falsy slot value; a serialized list is always truthy |
| Dashboard.ReadSlot | src/Components/Dashboard.tsx:18-29 | the stored list is loaded exactly when reading succeeds and the slot holds a serialized list; nothing happens exactly when the slot is missing or empty; anything else fails |
| Dashboard.SaveThenRead | src/Components/Dashboard.tsx:21-24 | a list written to the slot is read back exactly |
| Dashboard.SpliceStart | src/Components/Dashboard.tsx:37 | the resolved start lies within the list: non-negative starts are kept, negative ones count from the end |
| Dashboard.RemoveAt | src/Components/Dashboard.tsx:36-37 | the list without the element at the resolved start (from the front, from the end, or the first when far negative); unchanged past the end |
| Dashboard.RemoveAtMultiset | src/Components/Dashboard.tsx:36-37 | removing an in-range index removes exactly that element and shifts the later ones down by one |
| Dashboard.Rows | src/Components/Dashboard.tsx:63 | one row per city; every row's index is in range and names its own city, and every position has its row |
| Dashboard.RemoveButtonRemovesItsRow | src/Components/Dashboard.tsx:63-86 | every rendered Remove button passes an in-range index, and removing it removes exactly its row's city |
| Dashboard.PinnedCities.constructor | src/Components/Dashboard.tsx:14 | the list starts empty |
| Dashboard.PinnedCities.FetchDashboardCities | src/Components/Dashboard.tsx:17-32 | a parsed list replaces the state; a missing or empty slot leaves it; a failure leaves it and is logged |
| Dashboard.PinnedCities.RemoveCity | src/Components/Dashboard.tsx:35-40 | the state becomes the list with the index spliced out; the slot then holds that list, or is unchanged when `setItem` throws |
| WeatherPage.VideoForKey | src/Components/WeatherPage.tsx:123-162 | a dedicated video is always the one the table lists for the key |
| WeatherPage.VideoFor | src/Components/WeatherPage.tsx:123-162 | a dedicated video is always the one the table lists for the lower-cased description |
| WeatherPage.SwitchMatchesTable | src/Components/WeatherPage.tsx:123-162 | the switch gives a key's video from the table of twelve cases, and the default exactly for keys not in the table |
| WeatherPage.VideoForMatchesTable | src/Components/WeatherPage.tsx:123-162 | a description's video is the table entry for its lower-cased form, and a dedicated video exactly when that form is listed |
| WeatherPage.TableVideosAreDedicated | src/Components/WeatherPage.tsx:6-18 | the twelve cases select twelve different videos, none of them the default |
| WeatherPage.VideoForIgnoresCase | src/Components/WeatherPage.tsx:123 | descriptions that differ only in letter case select the same video |
| WeatherPage.ExactMatching | src/Components/WeatherPage.tsx:142-153 | matching is exact: "light rain" is not taken for "rain", and an unlisted description gets the default |
| WeatherPage.TitleCaseDescription | src/Components/WeatherPage.tsx:123 | "Light Rain" selects the light-rain video |
| WeatherPage.ChooseVideo | src/Components/WeatherPage.tsx:123 | reading the first condition throws exactly when there is none; otherwise a dedicated video is the one listed for its lower-cased description |
| WeatherPage.OnlyFirstConditionCounts | src/Components/WeatherPage.tsx:123 | only the first weather condition decides the video |
| WeatherPage.InitialPage | src/Components/WeatherPage.tsx:64-67 | the page starts with no replies and no error, and renders "Loading..." |
| WeatherPage.HasError | src/Components/WeatherPage.tsx:112 | `if (error)`: no error and the empty message are falsy; any non-empty message is shown |
| WeatherPage.Render | src/Components/WeatherPage.tsx:106-162 | "Loading..." exactly while loading; the error view, with the message, exactly when idle with a non-empty error; "no data" exactly when idle, no error and a reply missing; a throw exactly when both replies are there but the weather list is empty; otherwise the content with the chosen video |
| WeatherPage.AfterFetch | src/Components/WeatherPage.tsx:74-101 | loading ends on every path; the weather is stored once fetched and the forecast only on success; the error is set exactly on failure |
| WeatherPage.FirstFetchView | src/Components/WeatherPage.tsx:64-162 | after the first fetch the page is never loading; it shows the content on success (a throw if the weather list is empty), the error on failure, and "no data" only for an empty error message |
| WeatherPage.ErrorIsSticky | src/Components/WeatherPage.tsx:97-114 | once an error is shown, any later fetch leaves an error view, unless it fails with an empty message |
| WeatherPage.RenderPrecedence | src/Components/WeatherPage.tsx:106-119 | loading masks an error, an error masks missing data, and content needs both replies and no error |

## Left out

- HTTP, JSON decoding of API bodies, the DOM and `IntersectionObserver`. These are
  replaced by the reply and intersection parameters. The observer's wiring and disconnect
  (`src/Components/CityTable.tsx:86-109`) are outside the model.
- React's scheduling of effects and batching of setters. The effects are separate methods,
  and the model states no combined end state for interleavings. One example is the filter
  effect overwriting the search results.
- The sort effect stores a fresh array and depends on `filteredCities`, so while a column
  is set React re-runs it after every run. The model proves that each re-run gives the
  same contents (CityTable.SortCitiesIdempotent). It does not model the endless re-running.
- CityTable.CityBrowser.LoadData: a request and its reply form one step. An intersection
  that arrives while a load is in flight advances `page` without starting a load for that
  page, and this is not modelled.
- The `catch`/`alert` in `loadData` is not modelled as a path. `fetchCityData` never
  rejects, so that path cannot run.
- Text.ToLower: maps only `A`–`Z`. Full Unicode case mapping is not modelled.
- `localeCompare`: left abstract. Only its consistency is assumed.
- Cities.City: population is an integer. JavaScript numbers, floating point and `NaN` are
  not modelled.
- Dashboard.ReadSlot: a slot holds either the serialization of a city list or text that
  does not parse. Valid JSON of some other shape is not modelled.
- Storage quota errors on `setItem` are not modelled.
- WeatherPage.Render: an empty weather list on the content path is the `RenderThrew` view.
  What React then does with the thrown `TypeError` is not modelled. A forecast item with an
  empty `weather` list also throws when the forecast is rendered
  (`src/Components/WeatherPage.tsx:297`). Forecast rendering is not modelled, so the model
  shows the content view for such a reply.
- The temperatures, humidity, pressure, wind, forecast items and their rendering, and the
  framer-motion animation are not modelled.
- `src/Layouts/Main_Layout.tsx` (navigation chrome) and `tailwind.config.js` (styling) hold
  no logic to model.

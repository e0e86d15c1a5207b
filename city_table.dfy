/**
 * The city browser of `CityTable`: infinite-scroll paging over the city-search API, a
 * name filter, a column sort, and the state the component keeps between events.
 */
module CityTable {
  import opened Wrappers
  import opened Text
  import opened Cities
  import Sorting

  // ---------------------------------------------------------------- paging

  /** Number of records asked for per page (`limit`). */
  const PageSize := 50

  /** The `rows`/`start` query parameters of one page request. */
  datatype Window = Window(limit: int, offset: int)

  predicate InWindow(w: Window, index: int) {
    w.offset <= index < w.offset + w.limit
  }

  /** The window `fetchCityData(pageNumber)` asks for. */
  function PageWindow(pageNumber: int): (w: Window)
    ensures w.limit == PageSize
    ensures pageNumber >= 1 ==> w.offset >= 0
  {
    Window(PageSize, (pageNumber - 1) * PageSize)
  }

  /** Page `p + 1` starts right where page `p` ends. */
  lemma ConsecutivePagesAdjacent(p: int)
    ensures PageWindow(p).offset + PageWindow(p).limit == PageWindow(p + 1).offset
  {
  }

  /** Every record position is requested by exactly one page, so pages neither overlap nor leave gaps. */
  lemma PageOfIndex(index: nat)
    ensures InWindow(PageWindow(index / PageSize + 1), index)
    ensures forall p :: InWindow(PageWindow(p), index) ==> p == index / PageSize + 1
  {
    var q := index / PageSize;
    assert q * PageSize <= index < q * PageSize + PageSize;
  }

  /** How a request to the city-search API ended. */
  datatype Reply =
    | Threw                           // `fetch` or `response.json()` rejected
    | NoRecords                       // the body has no `records` array
    | Records(records: seq<Record>)   // the body's `records` array

  /** What `fetchCityData` resolves to once its request has ended: never an exception. */
  function FetchCityData(reply: Reply): (batch: seq<City>)
    ensures batch == [] <==> (!reply.Records? || reply.records == [])
    ensures reply.Records? ==>
      |batch| == |reply.records| && forall i :: 0 <= i < |batch| ==> ToRecord(batch[i]) == reply.records[i]
  {
    match reply
    case Records(records) => MapRecords(records)
    case _ => []
  }

  /** The `[page]` effect only starts `loadData` when more may come and no load is in flight. */
  predicate CanLoad(hasMore: bool, loading: bool): (can: bool)
    ensures can ==> hasMore
    ensures loading ==> !can
  {
    hasMore && !loading
  }

  /** What the table shows below its rows. */
  datatype Footer = LoadingIndicator | Sentinel | NoMoreCities

  /** The footer: "Loading...", the `#bottom` sentinel, or "No more cities to load." */
  function FooterFor(loading: bool, hasMore: bool): (f: Footer)
    ensures f == Sentinel <==> CanLoad(hasMore, loading)
    ensures f == NoMoreCities <==> !loading && !hasMore
  {
    if loading then LoadingIndicator
    else if hasMore then Sentinel
    else NoMoreCities
  }

  // ---------------------------------------------------------------- filtering

  /** `city.name.toLowerCase().includes(searchInput.toLowerCase())`: the lower-cased query occurs in the lower-cased name. */
  predicate NameMatches(city: City, searchInput: string): (m: bool)
    ensures m <==> exists i :: OccursAt(ToLower(city.name), ToLower(searchInput), i)
  {
    ContainsIffOccurrence(ToLower(city.name), ToLower(searchInput));
    Contains(ToLower(city.name), ToLower(searchInput))
  }

  /** `r` is `s` with some elements left out and the rest in their order. */
  ghost predicate IsSubsequence<T>(r: seq<T>, s: seq<T>) {
    if r == [] then true
    else if s == [] then false
    else (r[0] == s[0] && IsSubsequence(r[1..], s[1..])) || IsSubsequence(r, s[1..])
  }

  /** `cities.filter(city => NameMatches(city, searchInput))` */
  function KeepMatching(cities: seq<City>, searchInput: string): (kept: seq<City>)
    ensures forall c :: c in kept ==> NameMatches(c, searchInput)
    ensures forall c :: multiset(kept)[c] == if NameMatches(c, searchInput) then multiset(cities)[c] else 0
    ensures IsSubsequence(kept, cities)
  {
    if cities == [] then []
    else
      var rest := KeepMatching(cities[1..], searchInput);
      assert cities == [cities[0]] + cities[1..];
      if NameMatches(cities[0], searchInput) then
        assert ([cities[0]] + rest)[1..] == rest;
        [cities[0]] + rest
      else rest
  }

  /**
   * `filterCities`: with a blank query the list is left as it is; otherwise exactly the
   * cities whose name contains the query, ignoring case, each as often as before and in the
   * same order.
   */
  function FilterCities(cities: seq<City>, searchInput: string): (filtered: seq<City>)
    ensures Trim(searchInput) == "" ==> filtered == cities
    ensures Trim(searchInput) != "" ==>
      && IsSubsequence(filtered, cities)
      && forall c :: multiset(filtered)[c] == if NameMatches(c, searchInput) then multiset(cities)[c] else 0
  {
    if Trim(searchInput) != "" then KeepMatching(cities, searchInput) else cities
  }

  lemma {:induction false} ToLowerKeepsBlank(s: string)
    ensures AllWhitespace(ToLower(s)) <==> AllWhitespace(s)
  {
    forall i | 0 <= i < |s| ensures IsWhitespace(ToLower(s)[i]) <==> IsWhitespace(s[i]) {
      if 'A' <= s[i] <= 'Z' {
        assert 'a' <= ToLower(s)[i] <= 'z';
      }
    }
  }

  lemma {:induction false} KeepMatchingByLowerQuery(cities: seq<City>, searchInput: string)
    ensures KeepMatching(cities, ToLower(searchInput)) == KeepMatching(cities, searchInput)
  {
    ToLowerIdempotent(searchInput);
    if cities != [] {
      KeepMatchingByLowerQuery(cities[1..], searchInput);
    }
  }

  /** The filter ignores the case of the query: filtering by its lower-case form gives the same list. */
  lemma FilterIgnoresQueryCase(cities: seq<City>, searchInput: string)
    ensures FilterCities(cities, ToLower(searchInput)) == FilterCities(cities, searchInput)
  {
    ToLowerKeepsBlank(searchInput);
    TrimEmptyIffBlank(searchInput);
    TrimEmptyIffBlank(ToLower(searchInput));
    KeepMatchingByLowerQuery(cities, searchInput);
  }

  // ---------------------------------------------------------------- sorting

  datatype Order = Asc | Desc

  /** `String.prototype.localeCompare`, supplied by the environment. */
  type Collation = (string, string) -> int

  /** `x * (sortOrder === "asc" ? 1 : -1)` */
  function Directed(x: int, sortOrder: Order): (r: int)
    ensures r == 0 <==> x == 0
    ensures r < 0 <==> if sortOrder == Asc then x < 0 else x > 0
  {
    if sortOrder == Asc then x else -x
  }

  /** The columns ordered by the collation. */
  predicate TextColumn(sortBy: string) {
    sortBy == "name" || sortBy == "country_name_en" || sortBy == "timezone"
  }

  /** The field a text column shows. */
  function TextKey(sortBy: string, c: City): string {
    if sortBy == "name" then c.name
    else if sortBy == "country_name_en" then c.countryNameEn
    else c.timezone
  }

  /**
   * The comparator `sortCities` hands to `Array.prototype.sort`: text columns by the collation
   * of their field, population by magnitude, reversed for "desc"; any other column finds all
   * cities equal.
   */
  function Compare(lc: Collation, sortBy: string, sortOrder: Order, a: City, b: City): (r: int)
    ensures TextColumn(sortBy) ==> r == Directed(lc(TextKey(sortBy, a), TextKey(sortBy, b)), sortOrder)
    ensures sortBy == "population" ==>
      && (r < 0 <==> if sortOrder == Asc then a.population < b.population else a.population > b.population)
      && (r == 0 <==> a.population == b.population)
    ensures !KnownColumn(sortBy) ==> r == 0
  {
    if sortBy == "name" then Directed(lc(a.name, b.name), sortOrder)
    else if sortBy == "country_name_en" then Directed(lc(a.countryNameEn, b.countryNameEn), sortOrder)
    else if sortBy == "timezone" then Directed(lc(a.timezone, b.timezone), sortOrder)
    else if sortBy == "population" then Directed(a.population - b.population, sortOrder)
    else 0
  }

  function CityComparator(lc: Collation, sortBy: string, sortOrder: Order): (City, City) -> int {
    (a: City, b: City) => Compare(lc, sortBy, sortOrder, a, b)
  }

  predicate KnownColumn(sortBy: string) {
    sortBy == "name" || sortBy == "country_name_en" || sortBy == "timezone" || sortBy == "population"
  }

  /** "desc" answers the opposite of "asc" for every column, so both agree on which pairs are equal. */
  lemma DescendingReverses(lc: Collation, sortBy: string, a: City, b: City)
    ensures Compare(lc, sortBy, Desc, a, b) == -Compare(lc, sortBy, Asc, a, b)
  {
  }

  lemma CompareAntisymmetric(lc: Collation, sortBy: string, sortOrder: Order, a: City, b: City)
    requires Sorting.Consistent(lc)
    ensures Compare(lc, sortBy, sortOrder, a, b) < 0 <==> Compare(lc, sortBy, sortOrder, b, a) > 0
  {
  }

  lemma CompareTransitive(lc: Collation, sortBy: string, sortOrder: Order, a: City, b: City, c: City)
    requires Sorting.Consistent(lc)
    requires Compare(lc, sortBy, sortOrder, a, b) <= 0 && Compare(lc, sortBy, sortOrder, b, c) <= 0
    ensures Compare(lc, sortBy, sortOrder, a, c) <= 0
  {
  }

  /** With a consistent collation the city comparator is consistent in every column and direction. */
  lemma ComparatorConsistent(lc: Collation, sortBy: string, sortOrder: Order)
    requires Sorting.Consistent(lc)
    ensures Sorting.Consistent(CityComparator(lc, sortBy, sortOrder))
  {
    var cmp := CityComparator(lc, sortBy, sortOrder);
    forall a: City, b: City ensures cmp(a, b) < 0 <==> cmp(b, a) > 0 {
      CompareAntisymmetric(lc, sortBy, sortOrder, a, b);
    }
    forall a: City, b: City, c: City | cmp(a, b) <= 0 && cmp(b, c) <= 0 ensures cmp(a, c) <= 0 {
      CompareTransitive(lc, sortBy, sortOrder, a, b, c);
    }
  }

  /** Both directions of a column find the same pairs equal. */
  lemma DirectionsShareTies(lc: Collation, sortBy: string, sortOrder: Order)
    ensures Sorting.SameTieRelation(CityComparator(lc, sortBy, sortOrder), CityComparator(lc, sortBy, Flip(sortOrder)))
  {
    forall a: City, b: City
      ensures CityComparator(lc, sortBy, sortOrder)(a, b) == 0 <==> CityComparator(lc, sortBy, Flip(sortOrder))(a, b) == 0
    {
      DescendingReverses(lc, sortBy, a, b);
    }
  }

  /** `if (sortBy)`: `null` and the empty string leave the list unsorted, any other column sorts it. */
  predicate SortActive(sortBy: Option<string>): (active: bool)
    ensures sortBy.None? ==> !active
    ensures sortBy == Some("") ==> !active
    ensures sortBy.Some? && |sortBy.value| > 0 ==> active
  {
    sortBy.Some? && sortBy.value != ""
  }

  /**
   * `sortCities`: with a column set, the same cities ordered by the comparator, cities the
   * comparator finds equal kept in their previous order; without one, the list as it is.
   */
  function SortCities(lc: Collation, sortBy: Option<string>, sortOrder: Order, filtered: seq<City>): (sorted: seq<City>)
    requires Sorting.Consistent(lc)
    ensures multiset(sorted) == multiset(filtered)
    ensures !SortActive(sortBy) ==> sorted == filtered
    ensures SortActive(sortBy) ==>
      && Sorting.Sorted(CityComparator(lc, sortBy.value, sortOrder), sorted)
      && Sorting.SameTies(CityComparator(lc, sortBy.value, sortOrder), sorted, filtered)
  {
    if SortActive(sortBy) then
      var cmp := CityComparator(lc, sortBy.value, sortOrder);
      ComparatorConsistent(lc, sortBy.value, sortOrder);
      Sorting.SortBySorted(cmp, filtered);
      Sorting.SortByStable(cmp, filtered);
      Sorting.SortBy(cmp, filtered)
    else filtered
  }

  /** Sorting the sorted list again (the effect re-runs on its own output) changes nothing. */
  lemma SortCitiesIdempotent(lc: Collation, sortBy: Option<string>, sortOrder: Order, filtered: seq<City>)
    requires Sorting.Consistent(lc)
    ensures SortCities(lc, sortBy, sortOrder, SortCities(lc, sortBy, sortOrder, filtered))
         == SortCities(lc, sortBy, sortOrder, filtered)
  {
    if SortActive(sortBy) {
      ComparatorConsistent(lc, sortBy.value, sortOrder);
      Sorting.SortByIdempotent(CityComparator(lc, sortBy.value, sortOrder), filtered);
    }
  }

  /** An unrecognised column finds every pair equal, so the list keeps its order. */
  lemma UnknownColumnKeepsOrder(lc: Collation, column: string, sortOrder: Order, filtered: seq<City>)
    requires Sorting.Consistent(lc) && !KnownColumn(column)
    ensures SortCities(lc, Some(column), sortOrder, filtered) == filtered
  {
    var cmp := CityComparator(lc, column, sortOrder);
    forall a: City, b: City ensures cmp(a, b) == 0 {
      assert cmp(a, b) == Compare(lc, column, sortOrder, a, b);
    }
    Sorting.SortByAllEqualIsIdentity(cmp, filtered);
  }

  /**
   * Pressing the current column twice (asc, desc, asc again, or desc, asc, desc again) brings
   * back the order the first sort produced.
   */
  lemma ToggleTwiceRestoresOrder(lc: Collation, column: string, sortOrder: Order, filtered: seq<City>)
    requires Sorting.Consistent(lc)
    ensures var first := SortCities(lc, Some(column), sortOrder, filtered);
      SortCities(lc, Some(column), sortOrder, SortCities(lc, Some(column), Flip(sortOrder), first)) == first
  {
    var first := SortCities(lc, Some(column), sortOrder, filtered);
    if column != "" {
      var cmp, flipped := CityComparator(lc, column, sortOrder), CityComparator(lc, column, Flip(sortOrder));
      ComparatorConsistent(lc, column, sortOrder);
      ComparatorConsistent(lc, column, Flip(sortOrder));
      DirectionsShareTies(lc, column, sortOrder);
      Sorting.SortByForgetsPriorSort(cmp, flipped, first);
      Sorting.SortByIdempotent(cmp, filtered);
    }
  }

  // ---------------------------------------------------------------- sort buttons

  datatype SortState = SortState(sortBy: Option<string>, sortOrder: Order)

  /** `sortOrder === "asc" ? "desc" : "asc"`: the other direction. */
  function Flip(o: Order): (flipped: Order)
    ensures flipped != o
  {
    if o == Asc then Desc else Asc
  }

  /** `handleSortChange(column)`: the same column flips the direction, another one starts ascending. */
  function NextSort(st: SortState, column: string): (next: SortState)
    ensures next.sortBy == Some(column)
    ensures st.sortBy == Some(column) ==> next.sortOrder != st.sortOrder
    ensures st.sortBy != Some(column) ==> next.sortOrder == Asc
  {
    if st.sortBy == Some(column) then SortState(st.sortBy, Flip(st.sortOrder))
    else SortState(Some(column), Asc)
  }

  /** Two presses on the current column restore the sort state. */
  lemma SortToggleInvolution(st: SortState, column: string)
    requires st.sortBy == Some(column)
    ensures NextSort(NextSort(st, column), column) == st
  {
  }

  // ---------------------------------------------------------------- component state

  /** The state `CityTable` keeps in `useState` hooks, and its event handlers and effects. */
  class CityBrowser {
    var cities: seq<City>
    var filteredCities: seq<City>
    var loading: bool
    var hasMore: bool
    var page: int
    var searchInput: string
    var sortBy: Option<string>
    var sortOrder: Order

    ghost predicate Valid()
      reads this
    {
      page >= 1
    }

    /** The initial `useState` values. */
    constructor ()
      ensures Valid()
      ensures cities == [] && filteredCities == [] && !loading && hasMore && page == 1
      ensures searchInput == "" && sortBy == None && sortOrder == Asc
    {
      cities, filteredCities := [], [];
      loading, hasMore, page := false, true, 1;
      searchInput, sortBy, sortOrder := "", None, Asc;
    }

    /**
     * The `[page]` effect: when a load may start, request the current page, append the
     * batch the reply yields and record whether it was non-empty. Returns the window asked
     * for, if a request was made.
     */
    method LoadData(reply: Reply) returns (request: Option<Window>)
      requires Valid()
      modifies this
      ensures Valid()
      ensures CanLoad(old(hasMore), old(loading)) ==>
        && request == Some(PageWindow(old(page)))
        && request.value.offset >= 0
        && cities == old(cities) + FetchCityData(reply)
        && hasMore == (FetchCityData(reply) != [])
        && !loading
      ensures !CanLoad(old(hasMore), old(loading)) ==>
        request == None && cities == old(cities) && hasMore == old(hasMore) && loading == old(loading)
      ensures page == old(page) && filteredCities == old(filteredCities) && searchInput == old(searchInput)
      ensures sortBy == old(sortBy) && sortOrder == old(sortOrder)
    {
      if CanLoad(hasMore, loading) {
        request := Some(PageWindow(page));
        loading := true;
        var newCities := FetchCityData(reply);
        cities := cities + newCities;
        hasMore := |newCities| > 0;
        loading := false;
      } else {
        request := None;
      }
    }

    /** The intersection observer's callback: advance the page while more may come. */
    method OnIntersection(isIntersecting: bool)
      requires Valid()
      modifies this
      ensures Valid()
      ensures page == old(page) + (if isIntersecting && old(hasMore) then 1 else 0)
      ensures cities == old(cities) && filteredCities == old(filteredCities)
      ensures loading == old(loading) && hasMore == old(hasMore) && searchInput == old(searchInput)
      ensures sortBy == old(sortBy) && sortOrder == old(sortOrder)
    {
      if isIntersecting && hasMore {
        page := page + 1;
      }
    }

    /** The `[cities, searchInput]` effect. */
    method ApplyFilter()
      requires Valid()
      modifies this`filteredCities
      ensures filteredCities == FilterCities(cities, searchInput)
    {
      filteredCities := FilterCities(cities, searchInput);
    }

    /** The `[filteredCities, sortBy, sortOrder]` effect, sorting with the environment's collation `lc`. */
    method ApplySort(lc: Collation)
      requires Valid() && Sorting.Consistent(lc)
      modifies this`filteredCities
      ensures filteredCities == SortCities(lc, sortBy, sortOrder, old(filteredCities))
    {
      if SortActive(sortBy) {
        filteredCities := SortCities(lc, sortBy, sortOrder, filteredCities);
      }
    }

    /**
     * `handleSearchInputChange`: store the trimmed input; a blank one clears the list;
     * otherwise the search reply's cities replace the list, a reply without records or a
     * failed request leaves it (the latter with an alert), and `loading` ends false.
     */
    method HandleSearchInputChange(value: string, reply: Reply) returns (alerted: bool)
      requires Valid()
      modifies this
      ensures Valid()
      ensures searchInput == Trim(value)
      ensures searchInput == "" ==> filteredCities == [] && loading == old(loading) && !alerted
      ensures searchInput != "" ==>
        && !loading
        && alerted == reply.Threw?
        && filteredCities == (if reply.Records? then MapRecords(reply.records) else old(filteredCities))
      ensures cities == old(cities) && hasMore == old(hasMore) && page == old(page)
      ensures sortBy == old(sortBy) && sortOrder == old(sortOrder)
    {
      var searchQuery := Trim(value);
      searchInput := searchQuery;
      alerted := false;
      if searchQuery == "" {
        filteredCities := [];
        return;
      }
      loading := true;
      if reply.Records? {
        filteredCities := MapRecords(reply.records);
      } else if reply.Threw? {
        alerted := true;
      }
      loading := false;
    }

    /** `handleSortChange(column)` */
    method HandleSortChange(column: string)
      requires Valid()
      modifies this`sortBy, this`sortOrder
      ensures SortState(sortBy, sortOrder) == NextSort(SortState(old(sortBy), old(sortOrder)), column)
    {
      if sortBy == Some(column) {
        sortOrder := Flip(sortOrder);
      } else {
        sortBy := Some(column);
        sortOrder := Asc;
      }
    }
  }

  /** A search for "ottawa" whose reply holds the one matching record shows exactly that city. */
  method SearchScenario()
  {
    var browser := new CityBrowser();
    var ottawa := Record(Fields("Ottawa", "America/Toronto", 934243, "Canada"));
    assert !IsWhitespace('o') && !IsWhitespace('a');
    var alerted := browser.HandleSearchInputChange("ottawa", Records([ottawa]));
    assert browser.filteredCities == [City("Ottawa", "America/Toronto", 934243, "Canada")];
    alerted := browser.HandleSearchInputChange("", Records([ottawa]));
    assert browser.filteredCities == [];
  }

  /** Two pages and then an empty one: the cities accumulate in arrival order and paging stops. */
  method PagingScenario(first: seq<Record>, second: seq<Record>)
    requires first != [] && second != []
  {
    var browser := new CityBrowser();
    var request := browser.LoadData(Records(first));
    assert request == Some(Window(50, 0));
    browser.OnIntersection(true);
    request := browser.LoadData(Records(second));
    assert request == Some(Window(50, 50));
    browser.OnIntersection(true);
    request := browser.LoadData(Threw);
    assert request == Some(Window(50, 100));
    assert browser.cities == MapRecords(first) + MapRecords(second) && !browser.hasMore;
    browser.OnIntersection(true);
    assert browser.page == 3;
    assert FooterFor(browser.loading, browser.hasMore) == NoMoreCities;
  }
}

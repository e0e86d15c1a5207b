/**
 * The `Dashboard` component: a list of pinned cities kept in one browser-storage slot, read
 * once when the component mounts and written back whole after every removal.
 */
module Dashboard {
  import opened Wrappers
  import opened Cities

  /** The storage key the list lives under. */
  const DashboardKey := "dashboardCities"

  /**
   * What a storage slot holds. `Serialized` is the text `JSON.stringify` wrote for a list
   * of cities (parsing it gives the list back exactly); `Unparseable` is any other text,
   * which `JSON.parse` rejects.
   */
  datatype StoredValue = Serialized(cities: seq<City>) | Unparseable(text: string)

  /**
   * `if (storedCities)`: the empty string is the one falsy text; a serialized list (at least
   * `[]`) never is.
   */
  predicate Truthy(v: StoredValue): (truthy: bool)
    ensures v.Serialized? ==> truthy
    ensures !truthy <==> v == Unparseable("")
  {
    !(v.Unparseable? && v.text == "")
  }

  /** `window.localStorage`: string-keyed slots; when storage is unavailable every access throws. */
  class Storage {
    var accessible: bool
    var slots: map<string, StoredValue>

    constructor (accessible: bool, slots: map<string, StoredValue>)
      ensures this.accessible == accessible && this.slots == slots
    {
      this.accessible := accessible;
      this.slots := slots;
    }

    /** `getItem(key)`: `threw` when storage is unavailable, otherwise the slot's content if any. */
    method GetItem(key: string) returns (threw: bool, item: Option<StoredValue>)
      ensures threw == !accessible
      ensures !threw ==> item == if key in slots then Some(slots[key]) else None
    {
      threw := !accessible;
      item := if !threw && key in slots then Some(slots[key]) else None;
    }

    /** `setItem(key, value)`: replaces one slot, or throws when storage is unavailable. */
    method SetItem(key: string, value: StoredValue) returns (threw: bool)
      modifies this`slots
      ensures threw == !accessible
      ensures slots == if threw then old(slots) else old(slots)[key := value]
    {
      threw := !accessible;
      if !threw {
        slots := slots[key := value];
      }
    }
  }

  /** How reading the slot ends. */
  datatype LoadOutcome =
    | Loaded(cities: seq<City>)   // the parsed list replaces the state
    | Skipped                     // no slot, or an empty one: nothing happens
    | Failed                      // reading or parsing threw: the error is logged

  /** `fetchDashboardCities` once `getItem` has answered. */
  function ReadSlot(threw: bool, item: Option<StoredValue>): (outcome: LoadOutcome)
    ensures outcome.Loaded? <==> !threw && item.Some? && item.value.Serialized?
    ensures outcome.Loaded? ==> outcome.cities == item.value.cities
    ensures outcome == Skipped <==> !threw && (item.None? || !Truthy(item.value))
  {
    if threw then Failed
    else match item
      case None => Skipped
      case Some(v) =>
        if !Truthy(v) then Skipped
        else if v.Serialized? then Loaded(v.cities)
        else Failed
  }

  /** A list written to an available storage is read back exactly. */
  lemma SaveThenRead(slots: map<string, StoredValue>, cities: seq<City>)
    ensures var saved := slots[DashboardKey := Serialized(cities)];
      ReadSlot(false, Some(saved[DashboardKey])) == Loaded(cities)
  {
  }

  /** Where `splice(start, …)` starts: a negative `start` counts from the end; both are clamped. */
  function SpliceStart(length: nat, start: int): (k: nat)
    ensures k <= length
    ensures 0 <= start <= length ==> k == start
    ensures start < 0 <= length + start ==> k == length + start
  {
    if start < 0 then (if length + start < 0 then 0 else length + start)
    else if start < length then start
    else length
  }

  /**
   * `[...list].splice(start, 1)` applied to a copy, as `removeCity` does: the list without the
   * element at the resolved position, or unchanged when that position is past the end.
   */
  function RemoveAt<T>(list: seq<T>, start: int): (r: seq<T>)
    ensures 0 <= start < |list| ==> r == list[..start] + list[start + 1..]
    ensures start < 0 <= |list| + start ==> r == list[..|list| + start] + list[|list| + start + 1..]
    ensures |list| + start < 0 && list != [] ==> r == list[1..]
    ensures start >= |list| ==> r == list
    ensures |r| == if start >= |list| || list == [] then |list| else |list| - 1
  {
    var k := SpliceStart(|list|, start);
    if k < |list| then list[..k] + list[k + 1..] else list
  }

  /** Removing a position keeps every other element, in order: the element count drops by one. */
  lemma RemoveAtMultiset<T>(list: seq<T>, index: int)
    requires 0 <= index < |list|
    ensures multiset(RemoveAt(list, index)) + multiset{list[index]} == multiset(list)
    ensures forall k :: 0 <= k < |list| - 1 ==>
      RemoveAt(list, index)[k] == if k < index then list[k] else list[k + 1]
  {
    assert list == list[..index] + [list[index]] + list[index + 1..];
  }

  /** One rendered table row: the city and the index its Remove button passes. */
  datatype Row = Row(index: int, city: City)

  /** `dashboardCities.map((city, index) => …)` */
  function Rows(list: seq<City>): (rows: seq<Row>)
    ensures |rows| == |list|
    ensures forall row :: row in rows ==> 0 <= row.index < |list| && list[row.index] == row.city
    ensures forall k :: 0 <= k < |list| ==> Row(k, list[k]) in rows
  {
    var rows := seq(|list|, k requires 0 <= k < |list| => Row(k, list[k]));
    assert forall k :: 0 <= k < |list| ==> rows[k] == Row(k, list[k]);
    rows
  }

  /** Every Remove button removes its own row, and only that row. */
  lemma RemoveButtonRemovesItsRow(list: seq<City>, row: Row)
    requires row in Rows(list)
    ensures 0 <= row.index < |list| && list[row.index] == row.city
    ensures RemoveAt(list, row.index) == list[..row.index] + list[row.index + 1..]
  {
  }

  /** The component's state (`dashboardCities`) and the storage it shares with the rest of the app. */
  class PinnedCities {
    const storage: Storage
    var dashboardCities: seq<City>

    /** `useState<City[]>([])` */
    constructor (storage: Storage)
      ensures this.storage == storage && dashboardCities == []
    {
      this.storage := storage;
      dashboardCities := [];
    }

    /** The mount effect: a parsed list replaces the state; anything else leaves it, a failure being logged. */
    method FetchDashboardCities() returns (logged: bool)
      modifies this`dashboardCities
      ensures var outcome := ReadSlot(!storage.accessible,
          if DashboardKey in storage.slots then Some(storage.slots[DashboardKey]) else None);
        && logged == outcome.Failed?
        && dashboardCities == if outcome.Loaded? then outcome.cities else old(dashboardCities)
    {
      var threw, storedCities := storage.GetItem(DashboardKey);
      var outcome := ReadSlot(threw, storedCities);
      logged := outcome.Failed?;
      if outcome.Loaded? {
        dashboardCities := outcome.cities;
      }
    }

    /**
     * `removeCity(index)`: the state becomes a copy of the list with the element at `index`
     * spliced out, then the copy is written to the slot (`setItem` throws, uncaught, when storage
     * is unavailable; the state is already updated by then).
     */
    method RemoveCity(index: int) returns (threw: bool)
      modifies this`dashboardCities, storage`slots
      ensures dashboardCities == RemoveAt(old(dashboardCities), index)
      ensures threw == !storage.accessible
      ensures storage.slots == if threw then old(storage.slots)
                               else old(storage.slots)[DashboardKey := Serialized(dashboardCities)]
    {
      var updatedCities := dashboardCities;
      updatedCities := RemoveAt(updatedCities, index);
      dashboardCities := updatedCities;
      threw := storage.SetItem(DashboardKey, Serialized(updatedCities));
    }
  }

  /** Mounting with no slot shows the empty list and logs nothing. */
  method MountWithoutSlot()
  {
    var storage := new Storage(true, map[]);
    var dashboard := new PinnedCities(storage);
    var logged := dashboard.FetchDashboardCities();
    assert dashboard.dashboardCities == [] && !logged;
  }

  /**
   * Remove the second of three pinned cities, then mount the dashboard again on the same
   * storage: it shows the same two cities, in their original order.
   */
  method RemoveThenRemount(a: City, b: City, c: City)
  {
    var storage := new Storage(true, map[DashboardKey := Serialized([a, b, c])]);
    var dashboard := new PinnedCities(storage);
    var logged := dashboard.FetchDashboardCities();
    assert dashboard.dashboardCities == [a, b, c];
    var threw := dashboard.RemoveCity(1);
    assert dashboard.dashboardCities == [a, c];
    var again := new PinnedCities(storage);
    logged := again.FetchDashboardCities();
    assert again.dashboardCities == [a, c] && !logged;
  }
}

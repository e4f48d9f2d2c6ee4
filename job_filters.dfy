/**
 * The filter bar `JobFilters.jsx`: the filter object the client keeps, the
 * rule `updateFilter` applies to a value picked or typed, and the test that
 * decides whether the "Clear All" button shows.
 */
module JobFilters {
  import opened Wrappers
  import opened JsObject

  /** The keys the filter bar writes into the filter object. */
  datatype FilterKey = Title | Company | Location | JobType | Tags | Sort

  /** The property name of a key, which is also its query-parameter name. */
  function Name(k: FilterKey): (n: string)
    ensures n != []
  {
    match k
    case Title => "title"
    case Company => "company"
    case Location => "location"
    case JobType => "job_type"
    case Tags => "tags"
    case Sort => "sort"
  }

  /** Different keys have different names. */
  lemma NameInjective(k: FilterKey, l: FilterKey)
    requires Name(k) == Name(l)
    ensures k == l
  {
  }

  type Filters = Entries<FilterKey>

  /** The "all" entries of the two drop-downs. */
  const AllLocations := "all-locations"
  const AllTypes := "all-types"

  /** The default sort, which the filter bar does not count as a filter. */
  const NewestFirst := "posting_date_desc"

  /** The value stored for what was picked or typed: the "all" entries and `""` become `undefined`. */
  function FilterValue(v: string): (r: Option<string>)
    ensures r.None? <==> v == AllLocations || v == AllTypes || v == ""
    ensures r.Some? ==> r.value == v
  {
    if v == AllLocations || v == AllTypes then None
    else if v == "" then None
    else Some(v)
  }

  /** `updateFilter(key, value)`: the new filter object, with only `key` changed. */
  function UpdateFilter(filters: Filters, key: FilterKey, value: string): (r: Filters)
    ensures Get(r, key) == FilterValue(value)
    ensures forall k :: k != key ==> Get(r, k) == Get(filters, k)
  {
    Set(filters, key, FilterValue(value))
  }

  /** A value that makes a filter in force: truthy and not the default sort. */
  predicate ActiveValue(v: Option<string>) {
    Truthy(v) && v.value != NewestFirst
  }

  /** `hasActiveFilters`: some value of the object, in key order, is an active one. */
  function HasActiveFilters(filters: Filters): (b: bool)
    ensures b <==> exists i :: 0 <= i < |filters| && ActiveValue(filters[i].1)
  {
    if filters == [] then false
    else if ActiveValue(filters[0].1) then true
    else
      var rest := HasActiveFilters(filters[1..]);
      assert forall i :: 1 <= i < |filters| ==> filters[i] == filters[1..][i - 1];
      rest
  }

  /**
   * Storing `v` under `key` gives an object with an active filter exactly
   * when `v` is active or some other key holds an active value.
   */
  lemma SetActive(filters: Filters, key: FilterKey, v: Option<string>)
    requires DistinctKeys(filters)
    ensures HasActiveFilters(Set(filters, key, v)) <==>
              ActiveValue(v) || exists i :: 0 <= i < |filters| && filters[i].0 != key && ActiveValue(filters[i].1)
  {
    var r := Set(filters, key, v);
    SetEntries(filters, key, v);
    if ActiveValue(v) {
      var i :| 0 <= i < |r| && r[i].0 == key;
      assert ActiveValue(r[i].1);
    }
    if exists i :: 0 <= i < |filters| && filters[i].0 != key && ActiveValue(filters[i].1) {
      var i :| 0 <= i < |filters| && filters[i].0 != key && ActiveValue(filters[i].1);
      assert r[i] == filters[i];
    }
  }

  /** After `updateFilter`, the same holds of the value the update stores. */
  lemma UpdateActive(filters: Filters, key: FilterKey, value: string)
    requires DistinctKeys(filters)
    ensures HasActiveFilters(UpdateFilter(filters, key, value)) <==>
              ActiveValue(FilterValue(value)) ||
              exists i :: 0 <= i < |filters| && filters[i].0 != key && ActiveValue(filters[i].1)
  {
    SetActive(filters, key, FilterValue(value));
  }
}

/**
 The filter bar's state logic: each control writes one key of the filter
 object, and the "Clear All" control appears only while some filter has a
 value.
 */
module FilterBar {
  import opened Js
  import StudentFilters

  /** The keys the bar's eleven controls write, in on-screen order. */
  const BarKeys: seq<string> := [
    "campus", "course", "agent", "intake", "location", "search",
    "offerStatus", "gsStatus", "coeStatus", "marketer", "visaStatus"
  ]

  /** `handleFilterChange(key, value)`: a copy of the filters with `key` set to `value`. */
  function HandleFilterChange(filters: Record, key: string, value: Value): (r: Record)
    ensures key in r && r[key] == value
    ensures forall k :: k in filters && k != key ==> k in r && r[k] == filters[k]
    ensures r.Keys == filters.Keys + {key}
  {
    filters[key := value]
  }

  /** The test applied to each value: `value && value !== ''`. */
  predicate IsActiveValue(v: Value) {
    Truthy(v) && v != Str("")
  }

  /** `hasActiveFilters`: some value of the filter object passes the test. */
  predicate HasActiveFilters(filters: Record) {
    exists k :: k in filters && IsActiveValue(filters[k])
  }

  /** The "Clear All" button is rendered exactly when a filter is active. */
  function ShowsClearButton(filters: Record): (shown: bool)
    ensures shown <==> exists k :: k in filters && Truthy(filters[k])
    ensures filters == map[] ==> !shown
  {
    HasActiveFilters(filters)
  }

  /** The second half of the test adds nothing: an active value is just a truthy one. */
  lemma ActiveIsTruthy(filters: Record)
    ensures HasActiveFilters(filters) <==> exists k :: k in filters && Truthy(filters[k])
    ensures (forall k :: k in filters ==> filters[k] == Str("")) ==> !HasActiveFilters(filters)
  {
  }

  /** One change made through the bar: the control's key and the string the control produced. */
  datatype Change = Change(control: nat, text: string)

  predicate ValidChange(c: Change) {
    c.control < |BarKeys|
  }

  /** The filter object after a sequence of changes made through the bar, oldest first. */
  function ApplyChanges(filters: Record, cs: seq<Change>): (r: Record)
    requires forall i :: 0 <= i < |cs| ==> ValidChange(cs[i])
    ensures forall k :: k in r && k !in filters ==> k in BarKeys
    ensures forall k :: k in filters && k !in BarKeys ==> k in r && r[k] == filters[k]
    ensures forall k :: k in r && k !in filters ==> r[k].Str?
  {
    if |cs| == 0 then filters
    else
      var c := cs[|cs| - 1];
      assert ValidChange(c);
      HandleFilterChange(ApplyChanges(filters, cs[..|cs| - 1]), BarKeys[c.control], Str(c.text))
  }

  /** Starting from no filters, the bar only ever writes its own eleven keys, all with strings. */
  lemma BarWritesOnlyItsKeys(cs: seq<Change>)
    requires forall i :: 0 <= i < |cs| ==> ValidChange(cs[i])
    ensures ApplyChanges(map[], cs).Keys <= set k | k in BarKeys
    ensures forall k :: k in ApplyChanges(map[], cs) ==> ApplyChanges(map[], cs)[k].Str?
  {
  }

  /** Setting a key twice keeps only the second value; setting two different keys commutes. */
  lemma ChangesCompose(f: Record, k1: string, v1: Value, k2: string, v2: Value)
    ensures k1 == k2 ==> HandleFilterChange(HandleFilterChange(f, k1, v1), k2, v2) == HandleFilterChange(f, k2, v2)
    ensures k1 != k2 ==>
              HandleFilterChange(HandleFilterChange(f, k1, v1), k2, v2)
              == HandleFilterChange(HandleFilterChange(f, k2, v2), k1, v1)
  {
  }

  /** A student fetch with any condition in it comes from active filters. */
  lemma ConditionsImplyActive(f: Record)
    requires |StudentFilters.WhereConditions(f)| > 0
    ensures HasActiveFilters(f)
  {
    var c := StudentFilters.WhereConditions(f)[0];
    var q := StudentFilters.QueryKeys[StudentFilters.FieldRank(c.fieldName)];
    assert Truthy(Get(f, q.key));
    assert q.key in f;
  }

  /**
   The converse fails: the bar's agent control makes the filters active,
   but the student fetch has no condition for it.
   */
  lemma AgentFilterActiveButUnqueried()
    ensures HasActiveFilters(map["agent" := Str("3")])
    ensures StudentFilters.WhereConditions(map["agent" := Str("3")]) == []
  {
    var f: Record := map[];
    StudentFilters.AgentAndMarketerIgnored(f, Str("3"));
    StudentFilters.EmptyFilterHasNoConditions();
    assert f["agent" := Str("3")] == map["agent" := Str("3")];
    assert IsActiveValue(map["agent" := Str("3")]["agent"]);
  }
}

/**
 Translation of a flat filter object into the ordered `where` list of a
 student fetch: one condition per truthy recognised key, in a fixed order,
 with the status keys renamed to the store's snake_case fields.
 */
module StudentFilters {
  import opened Js
  import opened Store

  /** A recognised filter key, the store field it constrains and the operator. */
  datatype QueryKey = QueryKey(key: string, field: string, op: Operator)

  /** The recognised keys in the order their conditions are emitted. */
  const QueryKeys: seq<QueryKey> := [
    QueryKey("campus", "campus", EqualTo),
    QueryKey("course", "course", EqualTo),
    QueryKey("intake", "intake", EqualTo),
    QueryKey("location", "location", EqualTo),
    QueryKey("offerStatus", "offer_status", EqualTo),
    QueryKey("gsStatus", "gs_status", EqualTo),
    QueryKey("coeStatus", "coe_status", EqualTo),
    QueryKey("visaStatus", "visa_status", EqualTo),
    QueryKey("search", "Name", Contains)
  ]

  predicate IsQueryKey(k: string) {
    exists j :: 0 <= j < |QueryKeys| && QueryKeys[j].key == k
  }

  /** The position of a store field in the emission order (`|QueryKeys|` if none). */
  function FieldRank(field: string): (j: nat)
    ensures j <= |QueryKeys|
    ensures j < |QueryKeys| ==> QueryKeys[j].field == field
  {
    if field == "campus" then 0
    else if field == "course" then 1
    else if field == "intake" then 2
    else if field == "location" then 3
    else if field == "offer_status" then 4
    else if field == "gs_status" then 5
    else if field == "coe_status" then 6
    else if field == "visa_status" then 7
    else if field == "Name" then 8
    else 9
  }

  lemma RankOfQueryField(j: nat)
    requires j < |QueryKeys|
    ensures FieldRank(QueryKeys[j].field) == j
  {
  }

  /** The condition a recognised key contributes: its single value, as given. */
  function ConditionFor(f: Record, q: QueryKey): Condition {
    Condition(q.field, q.op, [Get(f, q.key)])
  }

  /** The conditions contributed by the recognised keys from position `j` on. */
  function ConditionsFrom(f: Record, j: nat): (r: seq<Condition>)
    requires j <= |QueryKeys|
    ensures |r| <= |QueryKeys| - j
    ensures forall a :: 0 <= a < |r| ==>
              j <= FieldRank(r[a].fieldName) < |QueryKeys|
              && r[a] == ConditionFor(f, QueryKeys[FieldRank(r[a].fieldName)])
              && Truthy(Get(f, QueryKeys[FieldRank(r[a].fieldName)].key))
    ensures forall a, b :: 0 <= a < b < |r| ==> FieldRank(r[a].fieldName) < FieldRank(r[b].fieldName)
    ensures forall i :: j <= i < |QueryKeys| ==>
              (Truthy(Get(f, QueryKeys[i].key)) <==> ConditionFor(f, QueryKeys[i]) in r)
    decreases |QueryKeys| - j
  {
    if j == |QueryKeys| then []
    else
      var rest := ConditionsFrom(f, j + 1);
      RankOfQueryField(j);
      RanksOfQueryFields();
      if Truthy(Get(f, QueryKeys[j].key)) then [ConditionFor(f, QueryKeys[j])] + rest else rest
  }

  lemma RanksOfQueryFields()
    ensures forall j :: 0 <= j < |QueryKeys| ==> FieldRank(ConditionFor(map[], QueryKeys[j]).fieldName) == j
  {
  }

  /**
   `getFilteredData`'s where list: exactly one condition per recognised key
   whose value is truthy, emitted in the fixed order campus, course, intake,
   location, offerStatus, gsStatus, coeStatus, visaStatus, search; each
   carries the key's own value as its single value.
   */
  function WhereConditions(f: Record): (r: seq<Condition>)
    ensures |r| <= |QueryKeys|
    ensures forall i :: 0 <= i < |QueryKeys| ==>
              (Truthy(Get(f, QueryKeys[i].key)) <==> ConditionFor(f, QueryKeys[i]) in r)
    ensures forall a :: 0 <= a < |r| ==>
              FieldRank(r[a].fieldName) < |QueryKeys|
              && r[a] == ConditionFor(f, QueryKeys[FieldRank(r[a].fieldName)])
              && Truthy(Get(f, QueryKeys[FieldRank(r[a].fieldName)].key))
    ensures forall a, b :: 0 <= a < b < |r| ==> FieldRank(r[a].fieldName) < FieldRank(r[b].fieldName)
    ensures forall a :: 0 <= a < |r| ==> |r[a].values| == 1
    ensures forall a :: 0 <= a < |r| ==> (r[a].operator == Contains <==> r[a].fieldName == "Name")
  {
    OperatorsOfQueryKeys();
    ConditionsFrom(f, 0)
  }

  lemma OperatorsOfQueryKeys()
    ensures forall j :: 0 <= j < |QueryKeys| ==> (QueryKeys[j].op == Contains <==> QueryKeys[j].field == "Name")
  {
  }

  /** The empty filter object yields an empty where list. */
  lemma EmptyFilterHasNoConditions()
    ensures WhereConditions(map[]) == []
  {
  }

  /** A key outside the nine (such as `agent` or `marketer`) never changes the where list. */
  lemma {:induction false} OtherKeysIgnored(f: Record, k: string, v: Value, j: nat)
    requires !IsQueryKey(k)
    requires j <= |QueryKeys|
    ensures ConditionsFrom(f[k := v], j) == ConditionsFrom(f, j)
    decreases |QueryKeys| - j
  {
    if j < |QueryKeys| {
      OtherKeysIgnored(f, k, v, j + 1);
      assert QueryKeys[j].key != k;
      assert Get(f[k := v], QueryKeys[j].key) == Get(f, QueryKeys[j].key);
    }
  }

  lemma AgentAndMarketerIgnored(f: Record, v: Value)
    ensures WhereConditions(f["agent" := v]) == WhereConditions(f)
    ensures WhereConditions(f["marketer" := v]) == WhereConditions(f)
  {
    OtherKeysIgnored(f, "agent", v, 0);
    OtherKeysIgnored(f, "marketer", v, 0);
  }
}

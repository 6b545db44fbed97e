/**
 The marketer-performance service: a roll-up record whose three totals
 `create` sets to 0 when falsy and `update` sends as given.
 */
module MarketerPerformanceService {
  import opened Js
  import opened Store

  const Svc := Service(
    "marketer_performance", "Invalid marketer performance ID",
    "Failed to create marketer performance", "Failed to update marketer performance",
    "Failed to delete marketer performance")

  datatype PerformancePayload = PerformancePayload(
    id: Option<int>,
    name: Value,
    marketer: Option<int>,
    totalOffers: Value,
    totalCoes: Value,
    totalCollections: Value)

  /** The record `create` sends: totals default to 0; the marketer reference is parsed. */
  function CreatePayload(d: Record): (p: PerformancePayload)
    ensures p.id.None?
    ensures p.name == Or(Get(d, "Name"), Get(d, "name"))
    ensures p.marketer == ParseIntValue(Get(d, "marketer"))
    ensures !Truthy(Get(d, "totalOffers")) ==> p.totalOffers == Num(0)
    ensures !Truthy(Get(d, "totalCoes")) ==> p.totalCoes == Num(0)
    ensures !Truthy(Get(d, "totalCollections")) ==> p.totalCollections == Num(0)
    ensures Truthy(Get(d, "totalOffers")) ==> p.totalOffers == Get(d, "totalOffers")
    ensures Truthy(Get(d, "totalCoes")) ==> p.totalCoes == Get(d, "totalCoes")
    ensures Truthy(Get(d, "totalCollections")) ==> p.totalCollections == Get(d, "totalCollections")
  {
    PerformancePayload(
      None,
      Or(Get(d, "Name"), Get(d, "name")),
      ParseIntValue(Get(d, "marketer")),
      Or(Get(d, "totalOffers"), Num(0)),
      Or(Get(d, "totalCoes"), Num(0)),
      Or(Get(d, "totalCollections"), Num(0)))
  }

  /** The record `update` sends: the parsed id; totals exactly as given. */
  function UpdatePayload(n: int, d: Record): (p: PerformancePayload)
    ensures p.id == Some(n)
    ensures p.name == Or(Get(d, "Name"), Get(d, "name"))
    ensures p.marketer == ParseIntValue(Get(d, "marketer"))
    ensures p.totalOffers == Get(d, "totalOffers") && p.totalCoes == Get(d, "totalCoes")
    ensures p.totalCollections == Get(d, "totalCollections")
  {
    PerformancePayload(
      Some(n),
      Or(Get(d, "Name"), Get(d, "name")),
      ParseIntValue(Get(d, "marketer")),
      Get(d, "totalOffers"),
      Get(d, "totalCoes"),
      Get(d, "totalCollections"))
  }

  function GetAll(resp: Response): (c: Call<PerformancePayload>)
    ensures c.request == Some(FetchRecords("marketer_performance", []))
    ensures resp.success ==> c.outcome.Returned? && Truthy(c.outcome.value)
    ensures c.outcome == ListOutcome(resp)
  {
    Store.GetAll(Svc, resp)
  }

  function GetById(id: Value, resp: Response): (c: Call<PerformancePayload>)
    ensures IsNaNId(id) ==> c.request.None? && c.outcome == Threw("Invalid marketer performance ID")
    ensures !IsNaNId(id) ==> c.request == Some(GetRecordById("marketer_performance", ParseIntValue(id).value))
    ensures !IsNaNId(id) ==> c.outcome == ReadOutcome(resp)
  {
    Store.GetById(Svc, id, resp)
  }

  function Create(d: Record, resp: Response): (c: Call<PerformancePayload>)
    ensures c.request == Some(CreateRecord("marketer_performance", CreatePayload(d)))
    ensures resp.success && resp.results.Some? && !AllSucceeded(resp.results.value) ==>
              c.outcome == Threw("Failed to create marketer performance")
    ensures c.outcome == WriteOutcome(resp, "Failed to create marketer performance")
  {
    SendCreate(Svc, CreatePayload(d), resp)
  }

  function Update(id: Value, d: Record, resp: Response): (c: Call<PerformancePayload>)
    ensures IsNaNId(id) ==> c.request.None? && c.outcome == Threw("Invalid marketer performance ID")
    ensures !IsNaNId(id) ==>
              c.request == Some(UpdateRecord("marketer_performance", UpdatePayload(ParseIntValue(id).value, d)))
              && c.outcome == WriteOutcome(resp, "Failed to update marketer performance")
  {
    match ParseIntValue(id)
    case None => Rejected(Svc.invalidId)
    case Some(n) => SendUpdate(Svc, UpdatePayload(n, d), resp)
  }

  function Delete(id: Value, resp: Response): (c: Call<PerformancePayload>)
    ensures IsNaNId(id) ==> c.request.None? && c.outcome == Threw("Invalid marketer performance ID")
    ensures !IsNaNId(id) ==> c.request == Some(DeleteRecord("marketer_performance", [ParseIntValue(id).value]))
    ensures c.outcome == Returned(Bool(true)) <==>
              !IsNaNId(id) && resp.success && resp.results.Some? && AllSucceeded(resp.results.value)
  {
    Store.Delete(Svc, id, resp)
  }

  /** A total given as 0 or truthy is sent the same by both; only other falsy totals differ. */
  predicate KeptByCreate(v: Value) {
    Truthy(v) || v == Num(0)
  }

  lemma UpdateMatchesCreateIffTotalsKept(n: int, d: Record)
    ensures UpdatePayload(n, d) == CreatePayload(d).(id := Some(n)) <==>
              KeptByCreate(Get(d, "totalOffers"))
              && KeptByCreate(Get(d, "totalCoes"))
              && KeptByCreate(Get(d, "totalCollections"))
  {
  }
}

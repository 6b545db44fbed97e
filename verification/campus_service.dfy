/** The campus service: a record of exactly a name and a location. */
module CampusService {
  import opened Js
  import opened Store

  const Svc := Service(
    "campus", "Invalid campus ID",
    "Failed to create campus", "Failed to update campus", "Failed to delete campus")

  datatype CampusPayload = CampusPayload(id: Option<int>, name: Value, location: Value)

  /** `name` wins over `Name`; `location` as given; `id` only on update. */
  function Payload(d: Record, id: Option<int>): (p: CampusPayload)
    ensures p.id == id
    ensures Truthy(Get(d, "name")) ==> p.name == Get(d, "name")
    ensures !Truthy(Get(d, "name")) ==> p.name == Get(d, "Name")
    ensures p.location == Get(d, "location")
  {
    CampusPayload(id, Or(Get(d, "name"), Get(d, "Name")), Get(d, "location"))
  }

  function GetAll(resp: Response): (c: Call<CampusPayload>)
    ensures c.request == Some(FetchRecords("campus", []))
    ensures resp.success ==> c.outcome.Returned? && Truthy(c.outcome.value)
    ensures c.outcome == ListOutcome(resp)
  {
    Store.GetAll(Svc, resp)
  }

  function GetById(id: Value, resp: Response): (c: Call<CampusPayload>)
    ensures IsNaNId(id) ==> c.request.None? && c.outcome == Threw("Invalid campus ID")
    ensures !IsNaNId(id) ==> c.request == Some(GetRecordById("campus", ParseIntValue(id).value))
    ensures !IsNaNId(id) ==> c.outcome == ReadOutcome(resp)
  {
    Store.GetById(Svc, id, resp)
  }

  function Create(d: Record, resp: Response): (c: Call<CampusPayload>)
    ensures c.request == Some(CreateRecord("campus", Payload(d, None)))
    ensures !resp.success ==> c.outcome == Threw(resp.message)
    ensures resp.success && resp.results.Some? && !AllSucceeded(resp.results.value) ==>
              c.outcome == Threw("Failed to create campus")
    ensures resp.success && resp.results.Some? && AllSucceeded(resp.results.value)
            && |resp.results.value| > 0 ==>
              c.outcome == Returned(resp.results.value[0].data)
    ensures c.outcome == WriteOutcome(resp, "Failed to create campus")
  {
    SendCreate(Svc, Payload(d, None), resp)
  }

  function Update(id: Value, d: Record, resp: Response): (c: Call<CampusPayload>)
    ensures IsNaNId(id) ==> c.request.None? && c.outcome == Threw("Invalid campus ID")
    ensures !IsNaNId(id) ==>
              c.request == Some(UpdateRecord("campus", Payload(d, ParseIntValue(id))))
              && c.outcome == WriteOutcome(resp, "Failed to update campus")
  {
    match ParseIntValue(id)
    case None => Rejected(Svc.invalidId)
    case Some(n) => SendUpdate(Svc, Payload(d, Some(n)), resp)
  }

  function Delete(id: Value, resp: Response): (c: Call<CampusPayload>)
    ensures IsNaNId(id) ==> c.request.None? && c.outcome == Threw("Invalid campus ID")
    ensures !IsNaNId(id) ==> c.request == Some(DeleteRecord("campus", [ParseIntValue(id).value]))
    ensures c.outcome == Returned(Bool(true)) <==>
              !IsNaNId(id) && resp.success && resp.results.Some? && AllSucceeded(resp.results.value)
  {
    Store.Delete(Svc, id, resp)
  }

  /** An update sends the create record plus the parsed id, and nothing else. */
  lemma UpdateIsCreatePlusId(id: Value, d: Record, resp: Response)
    requires !IsNaNId(id)
    ensures Update(id, d, resp).request.value.record
         == Create(d, resp).request.value.record.(id := Some(ParseIntValue(id).value))
  {
  }
}

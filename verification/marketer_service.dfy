/**
 The marketer service. `create` fills three defaults (`active`,
 `specialization`, `performance`); `update` fills none. Neither checks
 that any field is present.
 */
module MarketerService {
  import opened Js
  import opened Store
  import AgentService

  const Svc := Service(
    "marketer", "Invalid marketer ID",
    "Failed to create marketer", "Failed to update marketer", "Failed to delete marketer")

  const DefaultSpecialization := Str("General Marketing")
  const DefaultPerformance := Str("Good")

  datatype MarketerPayload = MarketerPayload(
    id: Option<int>,
    name: Value,
    email: Value,
    phone: Value,
    company: Value,
    active: Value,
    specialization: Value,
    performance: Value)

  /** The record `create` sends. */
  function CreatePayload(d: Record): (p: MarketerPayload)
    ensures p.id.None?
    ensures p.name == Or(Get(d, "name"), Get(d, "Name"))
    ensures p.email == Get(d, "email") && p.phone == Get(d, "phone") && p.company == Get(d, "company")
    ensures Get(d, "active") == Undefined ==> p.active == Bool(true)
    ensures Get(d, "active") != Undefined ==> p.active == Get(d, "active")
    ensures !Truthy(Get(d, "specialization")) ==> p.specialization == Str("General Marketing")
    ensures Truthy(Get(d, "specialization")) ==> p.specialization == Get(d, "specialization")
    ensures !Truthy(Get(d, "performance")) ==> p.performance == Str("Good")
    ensures Truthy(Get(d, "performance")) ==> p.performance == Get(d, "performance")
    ensures Truthy(p.specialization) && Truthy(p.performance)
  {
    MarketerPayload(
      None,
      Or(Get(d, "name"), Get(d, "Name")),
      Get(d, "email"),
      Get(d, "phone"),
      Get(d, "company"),
      AgentService.ActiveOrTrue(Get(d, "active")),
      Or(Get(d, "specialization"), DefaultSpecialization),
      Or(Get(d, "performance"), DefaultPerformance))
  }

  /** The record `update` sends: the parsed id and every field as given. */
  function UpdatePayload(n: int, d: Record): (p: MarketerPayload)
    ensures p.id == Some(n)
    ensures p.name == Or(Get(d, "name"), Get(d, "Name"))
    ensures p.email == Get(d, "email") && p.phone == Get(d, "phone") && p.company == Get(d, "company")
    ensures p.active == Get(d, "active")
    ensures p.specialization == Get(d, "specialization") && p.performance == Get(d, "performance")
  {
    MarketerPayload(
      Some(n),
      Or(Get(d, "name"), Get(d, "Name")),
      Get(d, "email"),
      Get(d, "phone"),
      Get(d, "company"),
      Get(d, "active"),
      Get(d, "specialization"),
      Get(d, "performance"))
  }

  function GetAll(resp: Response): (c: Call<MarketerPayload>)
    ensures c.request == Some(FetchRecords("marketer", []))
    ensures resp.success ==> c.outcome.Returned? && Truthy(c.outcome.value)
    ensures c.outcome == ListOutcome(resp)
  {
    Store.GetAll(Svc, resp)
  }

  function GetById(id: Value, resp: Response): (c: Call<MarketerPayload>)
    ensures IsNaNId(id) ==> c.request.None? && c.outcome == Threw("Invalid marketer ID")
    ensures !IsNaNId(id) ==> c.request == Some(GetRecordById("marketer", ParseIntValue(id).value))
    ensures !IsNaNId(id) ==> c.outcome == ReadOutcome(resp)
  {
    Store.GetById(Svc, id, resp)
  }

  /** Any caller data produces a request: there is no required-field check. */
  function Create(d: Record, resp: Response): (c: Call<MarketerPayload>)
    ensures c.request == Some(CreateRecord("marketer", CreatePayload(d)))
    ensures resp.success && resp.results.Some? && !AllSucceeded(resp.results.value) ==>
              c.outcome == Threw("Failed to create marketer")
    ensures c.outcome == WriteOutcome(resp, "Failed to create marketer")
  {
    SendCreate(Svc, CreatePayload(d), resp)
  }

  function Update(id: Value, d: Record, resp: Response): (c: Call<MarketerPayload>)
    ensures IsNaNId(id) ==> c.request.None? && c.outcome == Threw("Invalid marketer ID")
    ensures !IsNaNId(id) ==>
              c.request == Some(UpdateRecord("marketer", UpdatePayload(ParseIntValue(id).value, d)))
              && c.outcome == WriteOutcome(resp, "Failed to update marketer")
  {
    match ParseIntValue(id)
    case None => Rejected(Svc.invalidId)
    case Some(n) => SendUpdate(Svc, UpdatePayload(n, d), resp)
  }

  function Delete(id: Value, resp: Response): (c: Call<MarketerPayload>)
    ensures IsNaNId(id) ==> c.request.None? && c.outcome == Threw("Invalid marketer ID")
    ensures !IsNaNId(id) ==> c.request == Some(DeleteRecord("marketer", [ParseIntValue(id).value]))
    ensures c.outcome == Returned(Bool(true)) <==>
              !IsNaNId(id) && resp.success && resp.results.Some? && AllSucceeded(resp.results.value)
  {
    Store.Delete(Svc, id, resp)
  }

  /**
   An update sends what a create would, plus the id, exactly when none of
   the three create-time defaults applies.
   */
  lemma UpdateMatchesCreateIffNoDefault(n: int, d: Record)
    ensures UpdatePayload(n, d) == CreatePayload(d).(id := Some(n)) <==>
              Get(d, "active") != Undefined
              && Truthy(Get(d, "specialization"))
              && Truthy(Get(d, "performance"))
  {
  }
}

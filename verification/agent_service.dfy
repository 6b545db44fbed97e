/**
 The agent service. Unlike the student service it prefers the lower-case
 `name`, and `create` defaults `active` to true only when it is undefined.
 */
module AgentService {
  import opened Js
  import opened Store
  import StudentService

  const Svc := Service(
    "agent", "Invalid agent ID",
    "Failed to create agent", "Failed to update agent", "Failed to delete agent")

  datatype AgentPayload = AgentPayload(id: Option<int>, name: Value, email: Value, phone: Value, active: Value)

  /** `active !== undefined ? active : true`. */
  function ActiveOrTrue(v: Value): (r: Value)
    ensures v != Undefined ==> r == v
    ensures v == Undefined ==> r == Bool(true)
  {
    if v != Undefined then v else Bool(true)
  }

  /** The record `create` sends: `name` wins over `Name`; an undefined `active` becomes true. */
  function CreatePayload(d: Record): (p: AgentPayload)
    ensures p.id.None?
    ensures p.name == Or(Get(d, "name"), Get(d, "Name"))
    ensures p.email == Get(d, "email") && p.phone == Get(d, "phone")
    ensures Get(d, "active") == Undefined ==> p.active == Bool(true)
    ensures Get(d, "active") != Undefined ==> p.active == Get(d, "active")
  {
    AgentPayload(None, Or(Get(d, "name"), Get(d, "Name")), Get(d, "email"), Get(d, "phone"),
                 ActiveOrTrue(Get(d, "active")))
  }

  /** The record `update` sends: the parsed id, and `active` exactly as given. */
  function UpdatePayload(n: int, d: Record): (p: AgentPayload)
    ensures p.id == Some(n)
    ensures p.name == Or(Get(d, "name"), Get(d, "Name"))
    ensures p.email == Get(d, "email") && p.phone == Get(d, "phone")
    ensures p.active == Get(d, "active")
  {
    AgentPayload(Some(n), Or(Get(d, "name"), Get(d, "Name")), Get(d, "email"), Get(d, "phone"), Get(d, "active"))
  }

  function GetAll(resp: Response): (c: Call<AgentPayload>)
    ensures c.request == Some(FetchRecords("agent", []))
    ensures resp.success ==> c.outcome.Returned? && Truthy(c.outcome.value)
    ensures c.outcome == ListOutcome(resp)
  {
    Store.GetAll(Svc, resp)
  }

  function GetById(id: Value, resp: Response): (c: Call<AgentPayload>)
    ensures IsNaNId(id) ==> c.request.None? && c.outcome == Threw("Invalid agent ID")
    ensures !IsNaNId(id) ==> c.request == Some(GetRecordById("agent", ParseIntValue(id).value))
    ensures !IsNaNId(id) ==> c.outcome == ReadOutcome(resp)
  {
    Store.GetById(Svc, id, resp)
  }

  function Create(d: Record, resp: Response): (c: Call<AgentPayload>)
    ensures c.request == Some(CreateRecord("agent", CreatePayload(d)))
    ensures resp.success && resp.results.Some? && !AllSucceeded(resp.results.value) ==>
              c.outcome == Threw("Failed to create agent")
    ensures resp.success && resp.results.None? ==> c.outcome == Returned(Undefined)
    ensures c.outcome == WriteOutcome(resp, "Failed to create agent")
  {
    SendCreate(Svc, CreatePayload(d), resp)
  }

  function Update(id: Value, d: Record, resp: Response): (c: Call<AgentPayload>)
    ensures IsNaNId(id) ==> c.request.None? && c.outcome == Threw("Invalid agent ID")
    ensures !IsNaNId(id) ==>
              c.request == Some(UpdateRecord("agent", UpdatePayload(ParseIntValue(id).value, d)))
              && c.outcome == WriteOutcome(resp, "Failed to update agent")
  {
    match ParseIntValue(id)
    case None => Rejected(Svc.invalidId)
    case Some(n) => SendUpdate(Svc, UpdatePayload(n, d), resp)
  }

  function Delete(id: Value, resp: Response): (c: Call<AgentPayload>)
    ensures IsNaNId(id) ==> c.request.None? && c.outcome == Threw("Invalid agent ID")
    ensures !IsNaNId(id) ==> c.request == Some(DeleteRecord("agent", [ParseIntValue(id).value]))
    ensures c.outcome == Returned(Bool(true)) <==>
              !IsNaNId(id) && resp.success && resp.results.Some? && AllSucceeded(resp.results.value)
  {
    Store.Delete(Svc, id, resp)
  }

  /**
   An update sends what a create would, plus the id, exactly when the
   caller gave `active` explicitly: only `create` defaults it.
   */
  lemma UpdateMatchesCreateIffActiveGiven(n: int, d: Record)
    ensures UpdatePayload(n, d) == CreatePayload(d).(id := Some(n)) <==> Get(d, "active") != Undefined
  {
  }

  /** An explicit `false` survives `create`. */
  lemma ExplicitInactiveKept(d: Record)
    requires Get(d, "active") == Bool(false)
    ensures CreatePayload(d).active == Bool(false)
  {
  }

  /**
   The agent service and the student service resolve a record carrying
   both spellings of the name in opposite ways.
   */
  lemma NamePreferenceOpposesStudent(d: Record)
    requires Truthy(Get(d, "name")) && Truthy(Get(d, "Name"))
    ensures CreatePayload(d).name == Get(d, "name")
    ensures StudentService.Payload(d, None).name == Get(d, "Name")
  {
  }
}

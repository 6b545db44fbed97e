/**
 The student service: record shaping for `create`/`update`, id checks, the
 store-response interpretation and the filtered fetch.
 */
module StudentService {
  import opened Js
  import opened Store
  import StudentFilters

  const Svc := Service(
    "student", "Invalid student ID",
    "Failed to create student", "Failed to update student", "Failed to delete student")

  /**
   The record sent to the `student` table. `id` is `None` when the record
   has no `Id` key (create); the three references are the results of
   `parseInt`, `None` standing for NaN.
   */
  datatype StudentPayload = StudentPayload(
    id: Option<int>,
    name: Value,
    course: Value,
    intake: Value,
    location: Value,
    offerStatus: Value,
    gsStatus: Value,
    visaStatus: Value,
    amount: Value,
    coeStatus: Value,
    remarks: Value,
    campus: Option<int>,
    agentName: Option<int>,
    marketerName: Option<int>)

  /**
   The record built from caller data: `Name` wins over `name`, every
   snake_case status wins over its camelCase spelling, references are parsed.
   */
  function Payload(d: Record, id: Option<int>): (p: StudentPayload)
    ensures p.id == id
    ensures p.name == Or(Get(d, "Name"), Get(d, "name"))
    ensures p.offerStatus == Or(Get(d, "offer_status"), Get(d, "offerStatus"))
    ensures p.gsStatus == Or(Get(d, "gs_status"), Get(d, "gsStatus"))
    ensures p.visaStatus == Or(Get(d, "visa_status"), Get(d, "visaStatus"))
    ensures p.coeStatus == Or(Get(d, "coe_status"), Get(d, "coeStatus"))
    ensures p.course == Get(d, "course") && p.intake == Get(d, "intake")
    ensures p.location == Get(d, "location") && p.amount == Get(d, "amount")
    ensures p.remarks == Get(d, "remarks")
    ensures p.campus == ParseIntValue(Get(d, "campus"))
    ensures p.agentName == ParseIntValue(Or(Get(d, "agent_name"), Get(d, "agentId")))
    ensures p.marketerName == ParseIntValue(Or(Get(d, "marketer_name"), Get(d, "marketerId")))
  {
    StudentPayload(
      id,
      Or(Get(d, "Name"), Get(d, "name")),
      Get(d, "course"),
      Get(d, "intake"),
      Get(d, "location"),
      Or(Get(d, "offer_status"), Get(d, "offerStatus")),
      Or(Get(d, "gs_status"), Get(d, "gsStatus")),
      Or(Get(d, "visa_status"), Get(d, "visaStatus")),
      Get(d, "amount"),
      Or(Get(d, "coe_status"), Get(d, "coeStatus")),
      Get(d, "remarks"),
      ParseIntValue(Get(d, "campus")),
      ParseIntValue(Or(Get(d, "agent_name"), Get(d, "agentId"))),
      ParseIntValue(Or(Get(d, "marketer_name"), Get(d, "marketerId"))))
  }

  function GetAll(resp: Response): (c: Call<StudentPayload>)
    ensures c.request == Some(FetchRecords("student", []))
    ensures resp.success ==> c.outcome.Returned? && Truthy(c.outcome.value)
    ensures c.outcome == ListOutcome(resp)
  {
    Store.GetAll(Svc, resp)
  }

  function GetById(id: Value, resp: Response): (c: Call<StudentPayload>)
    ensures IsNaNId(id) ==> c.request.None? && c.outcome == Threw("Invalid student ID")
    ensures !IsNaNId(id) ==> c.request == Some(GetRecordById("student", ParseIntValue(id).value))
    ensures !IsNaNId(id) ==> c.outcome == ReadOutcome(resp)
  {
    Store.GetById(Svc, id, resp)
  }

  function Create(d: Record, resp: Response): (c: Call<StudentPayload>)
    ensures c.request == Some(CreateRecord("student", Payload(d, None)))
    ensures resp.success && resp.results.Some? && !AllSucceeded(resp.results.value) ==>
              c.outcome == Threw("Failed to create student")
    ensures c.outcome == WriteOutcome(resp, "Failed to create student")
  {
    SendCreate(Svc, Payload(d, None), resp)
  }

  function Update(id: Value, d: Record, resp: Response): (c: Call<StudentPayload>)
    ensures IsNaNId(id) ==> c.request.None? && c.outcome == Threw("Invalid student ID")
    ensures !IsNaNId(id) ==>
              c.request == Some(UpdateRecord("student", Payload(d, ParseIntValue(id))))
              && c.outcome == WriteOutcome(resp, "Failed to update student")
  {
    match ParseIntValue(id)
    case None => Rejected(Svc.invalidId)
    case Some(n) => SendUpdate(Svc, Payload(d, Some(n)), resp)
  }

  function Delete(id: Value, resp: Response): (c: Call<StudentPayload>)
    ensures IsNaNId(id) ==> c.request.None? && c.outcome == Threw("Invalid student ID")
    ensures !IsNaNId(id) ==> c.request == Some(DeleteRecord("student", [ParseIntValue(id).value]))
    ensures c.outcome == Returned(Bool(true)) <==>
              !IsNaNId(id) && resp.success && resp.results.Some? && AllSucceeded(resp.results.value)
  {
    Store.Delete(Svc, id, resp)
  }

  /**
   `getFilteredData`: the where list is built from the filters and the
   fetch is issued whatever the filters are, even with no condition.
   */
  function GetFilteredData(filters: Record, resp: Response): (c: Call<StudentPayload>)
    ensures c.request.Some? && c.request.value.FetchRecords?
    ensures c.request.value.table == "student"
    ensures c.request.value.where == StudentFilters.WhereConditions(filters)
    ensures filters == map[] ==> c.request == Some(FetchRecords("student", []))
    ensures c.outcome == ListOutcome(resp)
  {
    StudentFilters.EmptyFilterHasNoConditions();
    Call(Some(FetchRecords("student", StudentFilters.WhereConditions(filters))), ListOutcome(resp))
  }

  /** An update sends the same record a create would, plus the parsed id. */
  lemma UpdateIsCreatePlusId(id: Value, d: Record, resp: Response)
    requires !IsNaNId(id)
    ensures Update(id, d, resp).request.value.record
         == Create(d, resp).request.value.record.(id := Some(ParseIntValue(id).value))
  {
  }
}

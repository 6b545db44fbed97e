/**
 The application service: a join record referencing a student, campus,
 agent and marketer. References are `parseInt`'d; statuses, remarks and
 amount pass through untouched.
 */
module ApplicationService {
  import opened Js
  import opened Store

  const Svc := Service(
    "application", "Invalid application ID",
    "Failed to create application", "Failed to update application", "Failed to delete application")

  /** The record sent to the `application` table; reference `None` stands for NaN. */
  datatype ApplicationPayload = ApplicationPayload(
    id: Option<int>,
    name: Value,
    student: Option<int>,
    campus: Option<int>,
    agent: Option<int>,
    marketer: Option<int>,
    offerStatus: Value,
    gsStatus: Value,
    visaStatus: Value,
    coeStatus: Value,
    remarks: Value,
    amount: Value)

  /** `Name` wins over `name`; the four references are parsed; nothing is defaulted. */
  function Payload(d: Record, id: Option<int>): (p: ApplicationPayload)
    ensures p.id == id
    ensures p.name == Or(Get(d, "Name"), Get(d, "name"))
    ensures p.student == ParseIntValue(Get(d, "student"))
    ensures p.campus == ParseIntValue(Get(d, "campus"))
    ensures p.agent == ParseIntValue(Get(d, "agent"))
    ensures p.marketer == ParseIntValue(Get(d, "marketer"))
    ensures p.offerStatus == Get(d, "offerStatus") && p.gsStatus == Get(d, "gsStatus")
    ensures p.visaStatus == Get(d, "visaStatus") && p.coeStatus == Get(d, "coeStatus")
    ensures p.remarks == Get(d, "remarks") && p.amount == Get(d, "amount")
  {
    ApplicationPayload(
      id,
      Or(Get(d, "Name"), Get(d, "name")),
      ParseIntValue(Get(d, "student")),
      ParseIntValue(Get(d, "campus")),
      ParseIntValue(Get(d, "agent")),
      ParseIntValue(Get(d, "marketer")),
      Get(d, "offerStatus"),
      Get(d, "gsStatus"),
      Get(d, "visaStatus"),
      Get(d, "coeStatus"),
      Get(d, "remarks"),
      Get(d, "amount"))
  }

  function GetAll(resp: Response): (c: Call<ApplicationPayload>)
    ensures c.request == Some(FetchRecords("application", []))
    ensures resp.success ==> c.outcome.Returned? && Truthy(c.outcome.value)
    ensures c.outcome == ListOutcome(resp)
  {
    Store.GetAll(Svc, resp)
  }

  function GetById(id: Value, resp: Response): (c: Call<ApplicationPayload>)
    ensures IsNaNId(id) ==> c.request.None? && c.outcome == Threw("Invalid application ID")
    ensures !IsNaNId(id) ==> c.request == Some(GetRecordById("application", ParseIntValue(id).value))
    ensures !IsNaNId(id) ==> c.outcome == ReadOutcome(resp)
  {
    Store.GetById(Svc, id, resp)
  }

  function Create(d: Record, resp: Response): (c: Call<ApplicationPayload>)
    ensures c.request == Some(CreateRecord("application", Payload(d, None)))
    ensures resp.success && resp.results.Some? && !AllSucceeded(resp.results.value) ==>
              c.outcome == Threw("Failed to create application")
    ensures c.outcome == WriteOutcome(resp, "Failed to create application")
  {
    SendCreate(Svc, Payload(d, None), resp)
  }

  function Update(id: Value, d: Record, resp: Response): (c: Call<ApplicationPayload>)
    ensures IsNaNId(id) ==> c.request.None? && c.outcome == Threw("Invalid application ID")
    ensures !IsNaNId(id) ==>
              c.request == Some(UpdateRecord("application", Payload(d, ParseIntValue(id))))
              && c.outcome == WriteOutcome(resp, "Failed to update application")
  {
    match ParseIntValue(id)
    case None => Rejected(Svc.invalidId)
    case Some(n) => SendUpdate(Svc, Payload(d, Some(n)), resp)
  }

  function Delete(id: Value, resp: Response): (c: Call<ApplicationPayload>)
    ensures IsNaNId(id) ==> c.request.None? && c.outcome == Threw("Invalid application ID")
    ensures !IsNaNId(id) ==> c.request == Some(DeleteRecord("application", [ParseIntValue(id).value]))
    ensures c.outcome == Returned(Bool(true)) <==>
              !IsNaNId(id) && resp.success && resp.results.Some? && AllSucceeded(resp.results.value)
  {
    Store.Delete(Svc, id, resp)
  }

  /** A reference given as a number reaches the store as that number. */
  lemma NumericReferencesKept(d: Record, id: Option<int>, s: int, c: int, a: int, m: int)
    requires Get(d, "student") == Num(s) && Get(d, "campus") == Num(c)
    requires Get(d, "agent") == Num(a) && Get(d, "marketer") == Num(m)
    ensures Payload(d, id).student == Some(s) && Payload(d, id).campus == Some(c)
    ensures Payload(d, id).agent == Some(a) && Payload(d, id).marketer == Some(m)
  {
    ParseIntOfNumber(s);
    ParseIntOfNumber(c);
    ParseIntOfNumber(a);
    ParseIntOfNumber(m);
  }
}

/**
 The hosted record store as the entity services see it: the requests they
 send, the `{success, message, data, results[]}` responses they receive
 and the fixed way each service turns a response into a return value or a
 thrown error. The store itself is not modelled: its response is an input.
 */
module Store {
  import opened Js

  datatype Operator = EqualTo | Contains

  /** One entry of a fetch's `where` list. */
  datatype Condition = Condition(fieldName: string, operator: Operator, values: seq<Value>)

  /** One entry of a write response's `results` array. */
  datatype RecordResult = RecordResult(success: bool, data: Value)

  /** A store response; `results` is `None` when the response carries no array. */
  datatype Response = Response(
    success: bool,
    message: string,
    data: Value,
    results: Option<seq<RecordResult>>)

  /** The call a service issues; `P` is the shape of the record it writes. */
  datatype Request<P> =
    | FetchRecords(table: string, where: seq<Condition>)
    | GetRecordById(table: string, id: int)
    | CreateRecord(table: string, record: P)
    | UpdateRecord(table: string, record: P)
    | DeleteRecord(table: string, recordIds: seq<int>)

  /** How a service call ends: with a value (possibly `undefined`) or a thrown `Error`. */
  datatype Outcome = Returned(value: Value) | Threw(message: string)

  /** The store request a service call issued (`None`: it threw before any) and its outcome. */
  datatype Call<P> = Call(request: Option<Request<P>>, outcome: Outcome)

  /** The per-entity constants every service is built from: its table and its error texts. */
  datatype Service = Service(
    table: string,
    invalidId: string,
    createFailed: string,
    updateFailed: string,
    deleteFailed: string)

  predicate AllSucceeded(rs: seq<RecordResult>) {
    forall i :: 0 <= i < |rs| ==> rs[i].success
  }

  /** `results.filter(result => result.success)`. */
  function Successes(rs: seq<RecordResult>): (ok: seq<RecordResult>)
    ensures |ok| <= |rs|
    ensures forall i :: 0 <= i < |ok| ==> ok[i].success && ok[i] in rs
    ensures AllSucceeded(rs) ==> ok == rs
  {
    if |rs| == 0 then []
    else if rs[0].success then [rs[0]] + Successes(rs[1..])
    else Successes(rs[1..])
  }

  /** `results.filter(result => !result.success)`. */
  function Failures(rs: seq<RecordResult>): (failed: seq<RecordResult>)
    ensures |failed| <= |rs|
    ensures forall i :: 0 <= i < |failed| ==> !failed[i].success && failed[i] in rs
    ensures |failed| == 0 <==> AllSucceeded(rs)
  {
    if |rs| == 0 then []
    else if rs[0].success then Failures(rs[1..])
    else [rs[0]] + Failures(rs[1..])
  }

  /** `getAll`: throw the message on failure, else `response.data || []`. */
  function ListOutcome(resp: Response): (r: Outcome)
    ensures !resp.success <==> r.Threw?
    ensures !resp.success ==> r.message == resp.message
    ensures resp.success && Truthy(resp.data) ==> r == Returned(resp.data)
    ensures resp.success && !Truthy(resp.data) ==> r == Returned(Arr([]))
  {
    if !resp.success then Threw(resp.message) else Returned(Or(resp.data, Arr([])))
  }

  /** `getById`: throw the message on failure, else `response.data` as is. */
  function ReadOutcome(resp: Response): (r: Outcome)
    ensures !resp.success ==> r == Threw(resp.message)
    ensures resp.success ==> r == Returned(resp.data)
  {
    if !resp.success then Threw(resp.message) else Returned(resp.data)
  }

  /**
   `create`/`update`: throw the message when `success` is false; with no
   `results` array fall off the end (`undefined`); throw `failMsg` when
   any entry failed; otherwise return the first successful entry's `data`.
   */
  function WriteOutcome(resp: Response, failMsg: string): (r: Outcome)
    ensures !resp.success ==> r == Threw(resp.message)
    ensures resp.success && resp.results.None? ==> r == Returned(Undefined)
    ensures resp.success && resp.results.Some? && !AllSucceeded(resp.results.value) ==>
                  r == Threw(failMsg)
    ensures resp.success && resp.results.Some? && AllSucceeded(resp.results.value) ==>
                  r == Returned(if |resp.results.value| > 0 then resp.results.value[0].data else Undefined)
  {
    if !resp.success then Threw(resp.message)
    else match resp.results
      case None => Returned(Undefined)
      case Some(rs) =>
        var succeeded := Successes(rs);
        var failed := Failures(rs);
        if |failed| > 0 then Threw(failMsg)
        else if |succeeded| > 0 then Returned(succeeded[0].data)
        else Returned(Undefined)
  }

  /**
   `delete`: throw the message when `success` is false; return `true` when
   a `results` array is present and no entry failed; throw `failMsg` when
   one failed; `undefined` when there is no array.
   */
  function DeleteOutcome(resp: Response, failMsg: string): (r: Outcome)
    ensures r == Returned(Bool(true)) <==>
              resp.success && resp.results.Some? && AllSucceeded(resp.results.value)
    ensures r == Returned(Undefined) <==> resp.success && resp.results.None?
    ensures !resp.success ==> r == Threw(resp.message)
    ensures resp.success && resp.results.Some? && !AllSucceeded(resp.results.value) ==>
                  r == Threw(failMsg)
  {
    if !resp.success then Threw(resp.message)
    else match resp.results
      case None => Returned(Undefined)
      case Some(rs) =>
        if |Failures(rs)| > 0 then Threw(failMsg) else Returned(Bool(true))
  }

  /** A call that threw before reaching the store. */
  function Rejected<P>(message: string): (c: Call<P>)
    ensures c.request.None? && c.outcome.Threw?
  {
    Call(None, Threw(message))
  }

  /** `getAll`: always one fetch with no conditions. */
  function GetAll<P>(svc: Service, resp: Response): (c: Call<P>)
    ensures c.request == Some(FetchRecords(svc.table, []))
    ensures c.outcome == ListOutcome(resp)
  {
    Call(Some(FetchRecords(svc.table, [])), ListOutcome(resp))
  }

  /** `getById`: a NaN id throws `Invalid <entity> ID` before any store call. */
  function GetById<P>(svc: Service, id: Value, resp: Response): (c: Call<P>)
    ensures c.request.None? <==> IsNaNId(id)
    ensures IsNaNId(id) ==> c.outcome == Threw(svc.invalidId)
    ensures !IsNaNId(id) ==>
              c.request == Some(GetRecordById(svc.table, ParseIntValue(id).value))
              && c.outcome == ReadOutcome(resp)
  {
    match ParseIntValue(id)
    case None => Rejected(svc.invalidId)
    case Some(n) => Call(Some(GetRecordById(svc.table, n)), ReadOutcome(resp))
  }

  /** Send one record to be created and interpret the answer. */
  function SendCreate<P>(svc: Service, record: P, resp: Response): (c: Call<P>)
    ensures c.request == Some(CreateRecord(svc.table, record))
    ensures c.outcome == WriteOutcome(resp, svc.createFailed)
  {
    Call(Some(CreateRecord(svc.table, record)), WriteOutcome(resp, svc.createFailed))
  }

  /** Send one record to be updated and interpret the answer. */
  function SendUpdate<P>(svc: Service, record: P, resp: Response): (c: Call<P>)
    ensures c.request == Some(UpdateRecord(svc.table, record))
    ensures c.outcome == WriteOutcome(resp, svc.updateFailed)
  {
    Call(Some(UpdateRecord(svc.table, record)), WriteOutcome(resp, svc.updateFailed))
  }

  /** `delete`: a NaN id throws before any store call; otherwise delete exactly that id. */
  function Delete<P>(svc: Service, id: Value, resp: Response): (c: Call<P>)
    ensures c.request.None? <==> IsNaNId(id)
    ensures IsNaNId(id) ==> c.outcome == Threw(svc.invalidId)
    ensures !IsNaNId(id) ==>
              c.request == Some(DeleteRecord(svc.table, [ParseIntValue(id).value]))
              && c.outcome == DeleteOutcome(resp, svc.deleteFailed)
  {
    match ParseIntValue(id)
    case None => Rejected(svc.invalidId)
    case Some(n) => Call(Some(DeleteRecord(svc.table, [n])), DeleteOutcome(resp, svc.deleteFailed))
  }

  /** A number id is never rejected: it reaches the store unchanged. */
  lemma NumericIdReachesStore<P>(svc: Service, n: int, resp: Response)
    ensures GetById<P>(svc, Num(n), resp).request == Some(GetRecordById(svc.table, n))
    ensures Delete<P>(svc, Num(n), resp).request == Some(DeleteRecord(svc.table, [n]))
  {
    ParseIntOfNumber(n);
  }

  /** A write that returns a value and a delete on the same response agree on success. */
  lemma WriteAndDeleteAgree(resp: Response, failMsg: string)
    requires resp.success && resp.results.Some?
    ensures WriteOutcome(resp, failMsg).Threw? <==> DeleteOutcome(resp, failMsg).Threw?
  {
  }
}

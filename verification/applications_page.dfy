/**
 The pure logic of the applications page: the summary figures under the
 table, the reference-column rendering, the form defaults for a new and an
 edited application, field edits, and the filter-triggered reload.
 */
module ApplicationsPage {
  import opened Js
  import opened Store
  import ApplicationService
  import AnalyticsStats

  // ---------------------------------------------------------------------
  // Summary statistics

  /** The fields of an application the summary reads; `amount` is `None` when absent or null. */
  datatype AppRow = AppRow(offerStatus: Value, coeStatus: Value, amount: Option<int>)

  /** `a.amount || 0`. */
  function AmountOrZero(a: AppRow): int {
    if a.amount.Some? then a.amount.value else 0
  }

  datatype Summary = Summary(total: nat, offersIssued: nat, coeIssued: nat, totalCollection: int)

  /** The count of applications with `field` equal to `'Issued'`, offer (`true`) or COE (`false`). */
  function CountIssued(apps: seq<AppRow>, offer: bool): (n: nat)
    ensures n <= |apps|
  {
    if |apps| == 0 then 0
    else
      var s := if offer then apps[0].offerStatus else apps[0].coeStatus;
      (if s == Str("Issued") then 1 else 0) + CountIssued(apps[1..], offer)
  }

  /** The sum of `amount || 0` over the offer-issued applications. */
  function IssuedCollection(apps: seq<AppRow>): int {
    if |apps| == 0 then 0
    else (if apps[0].offerStatus == Str("Issued") then AmountOrZero(apps[0]) else 0) + IssuedCollection(apps[1..])
  }

  /** The four summary figures. */
  function SummaryOf(apps: seq<AppRow>): (s: Summary)
    ensures s.total == |apps|
    ensures s.offersIssued <= s.total && s.coeIssued <= s.total
    ensures s.offersIssued == 0 ==> s.totalCollection == 0
  {
    NoOffersNoCollection(apps);
    Summary(|apps|, CountIssued(apps, true), CountIssued(apps, false), IssuedCollection(apps))
  }

  lemma {:induction false} NoOffersNoCollection(apps: seq<AppRow>)
    ensures CountIssued(apps, true) == 0 ==> IssuedCollection(apps) == 0
  {
    if |apps| > 0 {
      NoOffersNoCollection(apps[1..]);
    }
  }

  /** The same application seen as a student row of the analytics, with a missing amount read as 0. */
  function AsStudentRow(a: AppRow): AnalyticsStats.StudentRow {
    AnalyticsStats.StudentRow(Undefined, Undefined, a.offerStatus, a.coeStatus, AmountOrZero(a))
  }

  function AsStudentRows(apps: seq<AppRow>): (rows: seq<AnalyticsStats.StudentRow>)
    ensures |rows| == |apps|
    ensures forall i :: 0 <= i < |apps| ==> rows[i] == AsStudentRow(apps[i])
  {
    seq(|apps|, i requires 0 <= i < |apps| => AsStudentRow(apps[i]))
  }

  lemma {:induction false} CountIssuedIsRowTotal(apps: seq<AppRow>, offer: bool)
    ensures CountIssued(apps, offer) ==
              AnalyticsStats.RowTotal(AsStudentRows(apps), if offer then AnalyticsStats.Offers else AnalyticsStats.Coes)
    ensures offer ==> IssuedCollection(apps) == AnalyticsStats.RowTotal(AsStudentRows(apps), AnalyticsStats.Amount)
  {
    if |apps| > 0 {
      var m := if offer then AnalyticsStats.Offers else AnalyticsStats.Coes;
      CountIssuedIsRowTotal(apps[1..], offer);
      RowTotalOfCons(AsStudentRow(apps[0]), AsStudentRows(apps[1..]), m);
      RowTotalOfCons(AsStudentRow(apps[0]), AsStudentRows(apps[1..]), AnalyticsStats.Amount);
      assert AsStudentRows(apps) == [AsStudentRow(apps[0])] + AsStudentRows(apps[1..]);
    }
  }

  lemma {:induction false} RowTotalOfCons(x: AnalyticsStats.StudentRow, rest: seq<AnalyticsStats.StudentRow>, m: AnalyticsStats.Measure)
    ensures AnalyticsStats.RowTotal([x] + rest, m) == AnalyticsStats.Contribution(x, m) + AnalyticsStats.RowTotal(rest, m)
    decreases |rest|
  {
    if |rest| > 0 {
      var p := rest[..|rest| - 1];
      RowTotalOfCons(x, p, m);
      assert ([x] + rest)[..|rest|] == [x] + p;
    } else {
      assert [x] + rest == [x];
    }
  }

  /**
   The page's summary agrees with the dashboard figures of the analytics
   over the same records, a missing amount counting as 0.
   */
  lemma SummaryMatchesDashboard(apps: seq<AppRow>)
    ensures var d := AnalyticsStats.Dashboard(AsStudentRows(apps));
            var s := SummaryOf(apps);
            s.total == d.totalApplications
            && s.offersIssued == d.offersIssued
            && s.coeIssued == d.coeIssued
            && s.totalCollection == d.totalCollection
  {
    CountIssuedIsRowTotal(apps, true);
    CountIssuedIsRowTotal(apps, false);
    AnalyticsStats.RowTotalsAreDashboard(AsStudentRows(apps));
  }

  // ---------------------------------------------------------------------
  // Reference columns

  /** The `render` of the student, campus, agent and marketer columns. */
  function RenderReference(v: Value): (shown: Value)
    ensures Truthy(shown)
    ensures v.Obj? && Truthy(Field(v, "Name")) ==> shown == Field(v, "Name")
    ensures !Truthy(v) ==> shown == Str("N/A")
    ensures !(v.Obj? && Truthy(Field(v, "Name"))) && Truthy(v) ==> shown == v
  {
    if Truthy(v) && (v.Obj? || v.Arr?) && Truthy(Field(v, "Name")) then Field(v, "Name")
    else Or(v, Str("N/A"))
  }

  // ---------------------------------------------------------------------
  // Form

  const Pending := Str("Pending")
  const Empty := Str("")

  const ReferenceKeys: seq<string> := ["student", "campus", "agent", "marketer"]

  /** `handleAddApplication`'s form: four `'Pending'` statuses and every other field empty. */
  const NewApplicationForm: Record := map[
    "Name" := Empty, "student" := Empty, "campus" := Empty, "agent" := Empty, "marketer" := Empty,
    "offerStatus" := Pending, "gsStatus" := Pending, "visaStatus" := Pending, "coeStatus" := Pending,
    "remarks" := Empty, "amount" := Empty]

  /** The form value of a reference: the referenced record's `Id`, else the value itself, else `''`. */
  function ReferenceValue(v: Value): (r: Value)
    ensures Truthy(Field(v, "Id")) ==> r == Field(v, "Id")
    ensures !Truthy(Field(v, "Id")) && Truthy(v) ==> r == v
    ensures !Truthy(v) ==> r == Empty
  {
    Or(Or(Field(v, "Id"), v), Empty)
  }

  /** The reference part of the edit form. */
  function EditReferences(a: Record): (part: Record)
    ensures part.Keys == {"student", "campus", "agent", "marketer"}
    ensures part["student"] == ReferenceValue(Get(a, "student"))
    ensures part["campus"] == ReferenceValue(Get(a, "campus"))
    ensures part["agent"] == ReferenceValue(Get(a, "agent"))
    ensures part["marketer"] == ReferenceValue(Get(a, "marketer"))
  {
    map[
      "student" := ReferenceValue(Get(a, "student")),
      "campus" := ReferenceValue(Get(a, "campus")),
      "agent" := ReferenceValue(Get(a, "agent")),
      "marketer" := ReferenceValue(Get(a, "marketer"))]
  }

  /** The status part of the edit form: a missing status reads `'Pending'`. */
  function EditStatuses(a: Record): (part: Record)
    ensures part.Keys == {"offerStatus", "gsStatus", "visaStatus", "coeStatus"}
    ensures part["offerStatus"] == Or(Get(a, "offerStatus"), Pending)
    ensures part["gsStatus"] == Or(Get(a, "gsStatus"), Pending)
    ensures part["visaStatus"] == Or(Get(a, "visaStatus"), Pending)
    ensures part["coeStatus"] == Or(Get(a, "coeStatus"), Pending)
  {
    map[
      "offerStatus" := Or(Get(a, "offerStatus"), Pending),
      "gsStatus" := Or(Get(a, "gsStatus"), Pending),
      "visaStatus" := Or(Get(a, "visaStatus"), Pending),
      "coeStatus" := Or(Get(a, "coeStatus"), Pending)]
  }

  /** The free-text part of the edit form: a missing value reads `''`. */
  function EditTexts(a: Record): (part: Record)
    ensures part.Keys == {"Name", "remarks", "amount"}
    ensures part["Name"] == Or(Get(a, "Name"), Empty)
    ensures part["remarks"] == Or(Get(a, "remarks"), Empty)
    ensures part["amount"] == Or(Get(a, "amount"), Empty)
  {
    map[
      "Name" := Or(Get(a, "Name"), Empty),
      "remarks" := Or(Get(a, "remarks"), Empty),
      "amount" := Or(Get(a, "amount"), Empty)]
  }

  /** `handleEdit(application)`: the form the edit dialog opens with. */
  function EditForm(a: Record): (form: Record)
    ensures Get(form, "student") == ReferenceValue(Get(a, "student"))
    ensures Get(form, "campus") == ReferenceValue(Get(a, "campus"))
    ensures Get(form, "agent") == ReferenceValue(Get(a, "agent"))
    ensures Get(form, "marketer") == ReferenceValue(Get(a, "marketer"))
    ensures Get(form, "offerStatus") == Or(Get(a, "offerStatus"), Pending)
    ensures Get(form, "gsStatus") == Or(Get(a, "gsStatus"), Pending)
    ensures Get(form, "visaStatus") == Or(Get(a, "visaStatus"), Pending)
    ensures Get(form, "coeStatus") == Or(Get(a, "coeStatus"), Pending)
    ensures Get(form, "Name") == Or(Get(a, "Name"), Empty)
    ensures Get(form, "remarks") == Or(Get(a, "remarks"), Empty)
    ensures Get(form, "amount") == Or(Get(a, "amount"), Empty)
  {
    var texts, statuses, references := EditTexts(a), EditStatuses(a), EditReferences(a);
    assert forall k :: k in statuses.Keys ==> k !in references.Keys;
    assert forall k :: k in texts.Keys ==> k !in references.Keys && k !in statuses.Keys;
    texts + statuses + references
  }

  /** Editing an application with no fields opens exactly the new-application form. */
  lemma EditOfEmptyIsNewForm()
    ensures EditForm(map[]) == NewApplicationForm
  {
  }

  /** Every status in an opened edit form is truthy, so it is never sent empty. */
  lemma EditFormStatusesSet(a: Record)
    ensures Truthy(Get(EditForm(a), "offerStatus")) && Truthy(Get(EditForm(a), "gsStatus"))
    ensures Truthy(Get(EditForm(a), "visaStatus")) && Truthy(Get(EditForm(a), "coeStatus"))
  {
  }

  /**
   A reference held as a record with a non-zero numeric `Id` reaches the
   update payload as that number.
   */
  lemma EditedReferenceReachesPayload(a: Record, k: string, n: int)
    requires k in ReferenceKeys
    requires Get(a, k).Obj? && Field(Get(a, k), "Id") == Num(n) && n != 0
    ensures Get(EditForm(a), k) == Num(n)
    ensures var p := ApplicationService.Payload(EditForm(a), None);
            (k == "student" ==> p.student == Some(n))
            && (k == "campus" ==> p.campus == Some(n))
            && (k == "agent" ==> p.agent == Some(n))
            && (k == "marketer" ==> p.marketer == Some(n))
  {
    var form := EditForm(a);
    assert Get(form, k) == ReferenceValue(Get(a, k)) by {
      assert k == "student" || k == "campus" || k == "agent" || k == "marketer";
    }
    ParseIntOfNumber(n);
  }

  /** `handleInputChange`: the named field takes the input's value and nothing else changes. */
  function HandleInputChange(form: Record, name: string, value: Value): (r: Record)
    ensures Get(r, name) == value
    ensures forall k :: k != name ==> Get(r, k) == Get(form, k)
    ensures r.Keys == form.Keys + {name}
  {
    form[name := value]
  }

  // ---------------------------------------------------------------------
  // Filters

  /**
   `applyFilters`: nothing when the filter object has no keys; otherwise
   a reload of every application, the filter values playing no part.
   */
  function ApplyFilters(filters: Record, resp: Response): (c: Option<Call<ApplicationService.ApplicationPayload>>)
    ensures c.None? <==> |filters.Keys| == 0
    ensures c.Some? ==> c.value == ApplicationService.GetAll(resp)
  {
    if |filters.Keys| == 0 then None else Some(ApplicationService.GetAll(resp))
  }

  /** Any two non-empty filter objects reload the same data; an object of empty values still reloads. */
  lemma ApplyFiltersIgnoresValues(f1: Record, f2: Record, resp: Response)
    requires |f1.Keys| > 0 && |f2.Keys| > 0
    ensures ApplyFilters(f1, resp) == ApplyFilters(f2, resp)
    ensures ApplyFilters(map["campus" := Empty], resp).Some?
  {
    assert "campus" in map["campus" := Empty].Keys;
  }
}

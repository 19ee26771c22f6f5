/** Patients' own health records: creation with defaults, who may read,
    change and delete a record, the partial update, and a doctor's access
    to a patient's records through an appointment.
 */
module HealthRecords {

  import opened Wrappers
  import opened Js
  import opened Entities
  import Seqs

  /** A stored blood pressure: the empty reading `{ systolic: null,
      diastolic: null }`, or the value the patient sent. */
  datatype Pressure = Unrecorded | Given(v: JsValue)

  /** A stored health record. The measurements are kept as sent; `date` is
      in milliseconds. */
  datatype HealthRecord = HealthRecord(
    id: Id,
    patientId: Id,
    date: int,
    bloodPressure: Pressure,
    bloodSugar: JsValue,
    weight: JsValue,
    height: JsValue,
    notes: JsValue)

  /** Record ids are distinct. */
  predicate DistinctIds(records: seq<HealthRecord>) {
    forall i, j :: 0 <= i < j < |records| ==> records[i].id != records[j].id
  }

  /** The `date` a request sends casts to a stored date: it is falsy (the
      handler then uses the current time or keeps the old date), or
      `parseDate`, the `Date` constructor followed by Mongoose's cast, reads
      it. `new Date("tomorrow")` is an invalid date, which the cast refuses. */
  predicate DateCasts(body: Body, parseDate: JsValue -> Option<int>) {
    Truthy(Get(body, "date")) ==> parseDate(Get(body, "date")).Some?
  }

  /** `createHealthRecord` by patient `patientId` at time `now`: a falsy
      date becomes `now`, others go through `parseDate`, and one that does
      not cast makes `create` throw (500); a falsy blood pressure becomes the
      empty reading; a falsy blood sugar, weight or height becomes `null`,
      so a measurement of `0` is not kept; falsy notes become `''`. */
  function CreateRecord(patientId: Id, body: Body, newId: Id, now: int, parseDate: JsValue -> Option<int>)
    : (r: Result<HealthRecord>)
    ensures r.Err? <==> !DateCasts(body, parseDate)
    ensures r.Err? ==> r.code == InternalError
    ensures r.Ok? ==> r.value.id == newId && r.value.patientId == patientId
    ensures r.Ok? ==> r.value.date == if Truthy(Get(body, "date")) then parseDate(Get(body, "date")).value else now
    ensures r.Ok? ==> (Truthy(Get(body, "bloodPressure")) <==> r.value.bloodPressure.Given?)
    ensures r.Ok? && r.value.bloodPressure.Given? ==> r.value.bloodPressure.v == Get(body, "bloodPressure")
    ensures r.Ok? ==> forall key :: key in {"bloodSugar", "weight", "height"} ==>
      var v := Get(body, key);
      var stored := if key == "bloodSugar" then r.value.bloodSugar else if key == "weight" then r.value.weight else r.value.height;
      (Truthy(v) ==> stored == v) && (!Truthy(v) ==> stored == Null)
    ensures r.Ok? && Truthy(r.value.notes) ==> r.value.notes == Get(body, "notes")
    ensures r.Ok? && !Truthy(Get(body, "notes")) ==> r.value.notes == Str("")
  {
    var date := Get(body, "date");
    var pressure := Get(body, "bloodPressure");
    if Truthy(date) && parseDate(date).None? then Err(InternalError)
    else
      Ok(HealthRecord(
        newId, patientId,
        if Truthy(date) then parseDate(date).value else now,
        if Truthy(pressure) then Given(pressure) else Unrecorded,
        Or(Get(body, "bloodSugar"), Null),
        Or(Get(body, "weight"), Null),
        Or(Get(body, "height"), Null),
        Or(Get(body, "notes"), Str(""))))
  }

  /** A weight of 0 is stored as no weight at all. */
  lemma ZeroWeightIsDropped(patientId: Id, newId: Id, now: int, parseDate: JsValue -> Option<int>)
    ensures CreateRecord(patientId, map["weight" := Num(0.0)], newId, now, parseDate).Ok?
    ensures CreateRecord(patientId, map["weight" := Num(0.0)], newId, now, parseDate).value.weight == Null
  {
    assert Get(map["weight" := Num(0.0)], "weight") == Num(0.0);
    assert Get(map["weight" := Num(0.0)], "date") == Undefined;
  }

  /** The filter `{ patientId }`. */
  function OfPatient(patientId: Id): HealthRecord -> bool {
    (r: HealthRecord) => r.patientId == patientId
  }

  /** The sort key `date`. */
  function Date(r: HealthRecord): int {
    r.date
  }

  /** `find({ patientId }).sort({ date: -1 })`: exactly the patient's
      records, newest first. */
  function RecordsOf(records: seq<HealthRecord>, patientId: Id): (s: seq<HealthRecord>)
    ensures |s| == Seqs.Count(records, OfPatient(patientId))
    ensures forall i :: 0 <= i < |s| ==> s[i].patientId == patientId && s[i] in records
    ensures forall x :: x in records && x.patientId == patientId ==> x in s
    ensures Seqs.SortedDesc(s, Date)
  {
    var s := Seqs.SortedFilter(records, OfPatient(patientId), Date);
    assert forall i :: 0 <= i < |s| ==> OfPatient(patientId)(s[i]);
    assert forall x :: x in records && x.patientId == patientId ==> OfPatient(patientId)(x);
    s
  }

  /** The position of the record with id `id`. */
  function Find(records: seq<HealthRecord>, id: Id): (k: Option<nat>)
    ensures k.Some? ==> k.value < |records| && records[k.value].id == id
    ensures k.None? ==> forall i :: 0 <= i < |records| ==> records[i].id != id
  {
    var k := Seqs.IndexWhere(records, (r: HealthRecord) => r.id == id);
    if k < |records| then Some(k) else None
  }

  /** `getHealthRecordById`: a malformed id (`None`) is a store error (500),
      a missing record 404; the owner and any doctor may read it, anyone
      else gets 403. */
  function GetRecord(records: seq<HealthRecord>, caller: Caller, idParam: Option<Id>): (r: Result<HealthRecord>)
    ensures idParam.None? ==> r == Err(InternalError)
    ensures idParam.Some? && Find(records, idParam.value).None? ==> r == Err(NotFound)
    ensures r.Ok? <==>
      && idParam.Some? && Find(records, idParam.value).Some?
      && (records[Find(records, idParam.value).value].patientId == caller.id || caller.role == Doctor)
    ensures r.Ok? ==> r.value in records && r.value.id == idParam.value
    ensures r.Err? && idParam.Some? && Find(records, idParam.value).Some? ==> r == Err(Forbidden)
  {
    if idParam.None? then Err(InternalError)
    else
      var k := Find(records, idParam.value);
      if k.None? then Err(NotFound)
      else if records[k.value].patientId != caller.id && caller.role != Doctor then Err(Forbidden)
      else Ok(records[k.value])
  }

  /** `findOne({ _id: id, patientId })`: the record only when the caller owns it. */
  function FindOwned(records: seq<HealthRecord>, id: Id, patientId: Id): (k: Option<nat>)
    ensures k.Some? ==> k.value < |records| && records[k.value].id == id && records[k.value].patientId == patientId
    ensures k.None? ==> forall i :: 0 <= i < |records| ==> !(records[i].id == id && records[i].patientId == patientId)
  {
    var k := Seqs.IndexWhere(records, (r: HealthRecord) => r.id == id && r.patientId == patientId);
    if k < |records| then Some(k) else None
  }

  /** The partial update of `updateHealthRecord`: the date and blood
      pressure change only when the new value is truthy; blood sugar,
      weight, height and notes change whenever they are sent, so `0`, `''`
      and `null` overwrite them. A date that does not cast makes the save
      throw (500). */
  function Patch(r: HealthRecord, body: Body, parseDate: JsValue -> Option<int>): (p: Result<HealthRecord>)
    ensures p.Err? <==> !DateCasts(body, parseDate)
    ensures p.Err? ==> p.code == InternalError
    ensures p.Ok? ==> p.value.id == r.id && p.value.patientId == r.patientId
    ensures p.Ok? ==> p.value.date == if Truthy(Get(body, "date")) then parseDate(Get(body, "date")).value else r.date
    ensures p.Ok? ==> p.value.bloodPressure == if Truthy(Get(body, "bloodPressure")) then Given(Get(body, "bloodPressure")) else r.bloodPressure
    ensures p.Ok? ==> p.value.bloodSugar == if Get(body, "bloodSugar").Undefined? then r.bloodSugar else Get(body, "bloodSugar")
    ensures p.Ok? ==> p.value.weight == if Get(body, "weight").Undefined? then r.weight else Get(body, "weight")
    ensures p.Ok? ==> p.value.height == if Get(body, "height").Undefined? then r.height else Get(body, "height")
    ensures p.Ok? ==> p.value.notes == if Get(body, "notes").Undefined? then r.notes else Get(body, "notes")
  {
    var date := Get(body, "date");
    if Truthy(date) && parseDate(date).None? then Err(InternalError)
    else
      Ok(r.(date := if Truthy(date) then parseDate(date).value else r.date,
            bloodPressure := if Truthy(Get(body, "bloodPressure")) then Given(Get(body, "bloodPressure")) else r.bloodPressure,
            bloodSugar := IfDefined(Get(body, "bloodSugar"), r.bloodSugar),
            weight := IfDefined(Get(body, "weight"), r.weight),
            height := IfDefined(Get(body, "height"), r.height),
            notes := IfDefined(Get(body, "notes"), r.notes)))
  }

  /** An update that sends no field leaves the record as it was, and
      applying the same update twice is applying it once. */
  lemma PatchLaws(r: HealthRecord, body: Body, parseDate: JsValue -> Option<int>)
    ensures Patch(r, map[], parseDate) == Ok(r)
    ensures Patch(r, body, parseDate).Ok? ==> Patch(Patch(r, body, parseDate).value, body, parseDate) == Patch(r, body, parseDate)
  {
    assert Get(map[], "date") == Undefined && Get(map[], "bloodPressure") == Undefined;
  }

  /** `updateHealthRecord`: a malformed id is a store error (500); the
      record must be the caller's own (404 otherwise, even for a doctor who
      may read it); it is patched in place, and a date that does not cast
      fails the save (500) with nothing changed. */
  function UpdateRecord(records: seq<HealthRecord>, caller: Caller, idParam: Option<Id>, body: Body,
                        parseDate: JsValue -> Option<int>): (r: Result<seq<HealthRecord>>)
    ensures idParam.None? ==> r == Err(InternalError)
    ensures idParam.Some? && FindOwned(records, idParam.value, caller.id).None? ==> r == Err(NotFound)
    ensures idParam.Some? && FindOwned(records, idParam.value, caller.id).Some? && !DateCasts(body, parseDate)
            ==> r == Err(InternalError)
    ensures r.Err? ==> r.code in {InternalError, NotFound}
    ensures r.Ok? <==> idParam.Some? && FindOwned(records, idParam.value, caller.id).Some? && DateCasts(body, parseDate)
    ensures r.Ok? ==>
      var k := FindOwned(records, idParam.value, caller.id).value;
      r.value == records[k := Patch(records[k], body, parseDate).value]
  {
    if idParam.None? then Err(InternalError)
    else
      var k := FindOwned(records, idParam.value, caller.id);
      if k.None? then Err(NotFound)
      else
        var p :- Patch(records[k.value], body, parseDate);
        Ok(records[k.value := p])
  }

  /** `deleteHealthRecord`: as for an update, only the owner's record is
      found; it is removed and nothing else changes. */
  function DeleteRecord(records: seq<HealthRecord>, caller: Caller, idParam: Option<Id>): (r: Result<seq<HealthRecord>>)
    ensures idParam.None? ==> r == Err(InternalError)
    ensures r.Err? ==> r.code in {InternalError, NotFound}
    ensures r.Ok? <==> idParam.Some? && FindOwned(records, idParam.value, caller.id).Some?
    ensures r.Ok? ==>
      var k := FindOwned(records, idParam.value, caller.id).value;
      |r.value| == |records| - 1 && records[k] !in r.value[..k] && r.value == records[..k] + records[k + 1..]
    ensures r.Ok? ==> forall x :: x in r.value ==> x in records
  {
    if idParam.None? then Err(InternalError)
    else
      var k := FindOwned(records, idParam.value, caller.id);
      if k.None? then Err(NotFound)
      else
        assert forall j :: 0 <= j < k.value ==> records[j].id != idParam.value || records[j].patientId != caller.id;
        Ok(records[..k.value] + records[k.value + 1..])
  }

  /** A doctor may read a patient's record but neither change nor delete
      it: both answer 404. */
  lemma DoctorReadsButCannotWrite(records: seq<HealthRecord>, doctor: Caller, id: Id, body: Body,
                                  parseDate: JsValue -> Option<int>)
    requires doctor.role == Doctor
    requires Find(records, id).Some? && records[Find(records, id).value].patientId != doctor.id
    requires DistinctIds(records)
    ensures GetRecord(records, doctor, Some(id)).Ok?
    ensures UpdateRecord(records, doctor, Some(id), body, parseDate) == Err(NotFound)
    ensures DeleteRecord(records, doctor, Some(id)) == Err(NotFound)
  {
  }

  /** The appointment statuses that give a doctor access to a patient's records. */
  const CareStatuses: set<string> := {"CONFIRMED", "IN_PROGRESS", "COMPLETED"}

  /** The doctor has an appointment with the patient in one of those statuses. */
  predicate InCare(appointments: map<Id, Appointment>, doctorId: Id, patientId: Id) {
    exists a | a in appointments :: appointments[a].doctorId == doctorId
                                  && appointments[a].patientId == patientId
                                  && appointments[a].status in CareStatuses
  }

  /** `getPatientHealthRecords`: only a doctor (403); a malformed patient
      id makes the appointment lookup throw (500); then only a doctor with an
      appointment with the patient that is confirmed, in progress or
      completed (403); then all the patient's records, newest first. */
  function PatientRecords(records: seq<HealthRecord>, appointments: map<Id, Appointment>, caller: Caller,
                          patientIdParam: Option<Id>): (r: Result<seq<HealthRecord>>)
    ensures caller.role != Doctor ==> r == Err(Forbidden)
    ensures caller.role == Doctor && patientIdParam.None? ==> r == Err(InternalError)
    ensures patientIdParam.Some? && r.Err? ==> r == Err(Forbidden)
    ensures r.Ok? <==> caller.role == Doctor && patientIdParam.Some?
                       && InCare(appointments, caller.id, patientIdParam.value)
    ensures r.Ok? ==> r.value == RecordsOf(records, patientIdParam.value)
  {
    if caller.role != Doctor then Err(Forbidden)
    else if patientIdParam.None? then Err(InternalError)
    else if !InCare(appointments, caller.id, patientIdParam.value) then Err(Forbidden)
    else Ok(RecordsOf(records, patientIdParam.value))
  }

  /** A booked (not yet confirmed) or cancelled appointment gives no access. */
  lemma BookingAloneGivesNoAccess(records: seq<HealthRecord>, doctor: Caller, patientId: Id, apptId: Id, status: string)
    requires doctor.role == Doctor
    requires status == "BOOKED" || status == "CANCELLED"
    ensures PatientRecords(records, map[apptId := Appointment(patientId, doctor.id, status)], doctor, Some(patientId))
         == Err(Forbidden)
  {
    var m := map[apptId := Appointment(patientId, doctor.id, status)];
    assert status !in CareStatuses;
    assert forall a | a in m :: m[a].status == status;
  }

  /** A record just created, under an id no stored record has, is listed
      among its owner's records and read back by its owner. */
  lemma CreatedRecordIsListed(records: seq<HealthRecord>, owner: Caller, body: Body, newId: Id, now: int,
                              parseDate: JsValue -> Option<int>)
    requires forall i :: 0 <= i < |records| ==> records[i].id != newId
    requires DateCasts(body, parseDate)
    ensures var rec := CreateRecord(owner.id, body, newId, now, parseDate).value;
      && rec in RecordsOf(records + [rec], owner.id)
      && GetRecord(records + [rec], owner, Some(newId)) == Ok(rec)
  {
    var rec := CreateRecord(owner.id, body, newId, now, parseDate).value;
    var all := records + [rec];
    assert all[|records|] == rec;
    var k := Find(all, newId);
    assert k == Some(|records|) by {
      assert k.Some? by { assert all[|records|].id == newId; }
      assert forall i :: 0 <= i < |records| ==> all[i].id != newId;
    }
  }
}

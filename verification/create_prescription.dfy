/** The doctor's prescription form: the list of medicines being written,
    the actions that add, remove and edit them, and the check that gates
    the submission.
 */
module CreatePrescription {

  import opened Wrappers
  import opened Text
  import ClientLists

  /** One line of the prescription. */
  datatype Medicine = Medicine(drugName: string, dosage: string, frequency: string, duration: string)

  /** The four inputs of a medicine line. */
  datatype Field = DrugName | Dosage | Frequency | Duration

  /** A medicine line with every input empty. */
  const Blank := Medicine("", "", "", "")

  function FieldOf(m: Medicine, f: Field): string {
    match f
    case DrugName => m.drugName
    case Dosage => m.dosage
    case Frequency => m.frequency
    case Duration => m.duration
  }

  /** The form opens with exactly one blank medicine. */
  function Initial(): (r: seq<Medicine>)
    ensures |r| == 1 && forall f :: FieldOf(r[0], f) == ""
  {
    [Blank]
  }

  /** The add button: one blank line more, at the end. */
  function AddMedicine(list: seq<Medicine>): (r: seq<Medicine>)
    ensures |r| == |list| + 1
    ensures r[..|list|] == list
    ensures forall f :: FieldOf(r[|list|], f) == ""
  {
    list + [Blank]
  }

  /** `Array.prototype.splice(index, 1)`: a negative index counts from the
      end (clamped at the start), and an index at or past the end removes
      nothing. */
  function SpliceOne<T>(list: seq<T>, index: int): (r: seq<T>)
    ensures index >= |list| || |list| == 0 ==> r == list
    ensures index < |list| && |list| > 0 ==>
      var k := if index >= 0 then index else if |list| + index >= 0 then |list| + index else 0;
      && k < |list|
      && |r| == |list| - 1
      && multiset(r) + multiset{list[k]} == multiset(list)
      && (forall i :: 0 <= i < k ==> r[i] == list[i])
      && (forall i :: k <= i < |r| ==> r[i] == list[i + 1])
  {
    var k := if index >= 0 then index else if |list| + index >= 0 then |list| + index else 0;
    if k >= |list| then list
    else
      assert list == list[..k] + [list[k]] + list[k + 1..];
      list[..k] + list[k + 1..]
  }

  /** The remove button of line `index`: ignored while only one line is
      left, and otherwise the line goes. */
  function RemoveMedicine(list: seq<Medicine>, index: int): (r: seq<Medicine>)
    ensures |list| <= 1 ==> r == list
    ensures |list| > 1 && 0 <= index < |list| ==>
      && |r| == |list| - 1
      && r[..index] == list[..index]
      && r[index..] == list[index + 1..]
    ensures |list| > 1 ==> |r| >= |list| - 1
  {
    if |list| <= 1 then list else SpliceOne(list, index)
  }

  /** The input `field` of line `index` takes `value`. The handler reads the
      line at `index` before writing it, so an index outside the list throws
      and the list stays as it was. */
  function ChangeMedicine(list: seq<Medicine>, index: int, field: Field, value: string): (r: seq<Medicine>)
    ensures |r| == |list|
    ensures forall i :: 0 <= i < |list| && i != index ==> r[i] == list[i]
    ensures 0 <= index < |list| ==>
      forall f :: FieldOf(r[index], f) == (if f == field then value else FieldOf(list[index], f))
  {
    if 0 <= index < |list| then
      var m := list[index];
      list[index := match field
        case DrugName => m.(drugName := value)
        case Dosage => m.(dosage := value)
        case Frequency => m.(frequency := value)
        case Duration => m.(duration := value)]
    else list
  }

  /** The actions of the form, as the buttons and inputs issue them. */
  datatype Action = Add | Remove(index: int) | Change(index: int, field: Field, value: string)

  function Apply(list: seq<Medicine>, a: Action): seq<Medicine> {
    match a
    case Add => AddMedicine(list)
    case Remove(i) => RemoveMedicine(list, i)
    case Change(i, f, v) => ChangeMedicine(list, i, f, v)
  }

  function ApplyAll(list: seq<Medicine>, actions: seq<Action>): seq<Medicine>
    decreases |actions|
  {
    if |actions| == 0 then list else ApplyAll(Apply(list, actions[0]), actions[1..])
  }

  /** However the doctor uses the form, it always holds at least one line. */
  lemma {:induction false} NeverEmpty(list: seq<Medicine>, actions: seq<Action>)
    requires |list| >= 1
    ensures |ApplyAll(list, actions)| >= 1
    decreases |actions|
  {
    if |actions| > 0 {
      NeverEmpty(Apply(list, actions[0]), actions[1..]);
    }
  }

  /** In particular from the form's opening state. */
  lemma FormNeverEmpty(actions: seq<Action>)
    ensures |ApplyAll(Initial(), actions)| >= 1
  {
    NeverEmpty(Initial(), actions);
  }

  /** Removing the line just added gives back the list as it was. */
  lemma RemoveUndoesAdd(list: seq<Medicine>)
    requires |list| >= 1
    ensures RemoveMedicine(AddMedicine(list), |list|) == list
  {
    var r := RemoveMedicine(AddMedicine(list), |list|);
    assert r == r[..|list|];
  }

  /** A line is complete when none of its four inputs is blank. */
  predicate Complete(m: Medicine) {
    forall f :: !IsBlank(FieldOf(m, f))
  }

  /** `medicines.every(med => med.drugName.trim() && … && med.duration.trim())`. */
  predicate CanSubmit(list: seq<Medicine>) {
    forall i :: 0 <= i < |list| ==>
      Trim(list[i].drugName) != "" && Trim(list[i].dosage) != ""
      && Trim(list[i].frequency) != "" && Trim(list[i].duration) != ""
  }

  /** The four tests of one line are the line being complete. */
  lemma CompleteIffFields(m: Medicine)
    ensures Complete(m) <==>
      Trim(m.drugName) != "" && Trim(m.dosage) != "" && Trim(m.frequency) != "" && Trim(m.duration) != ""
  {
    if Complete(m) {
      assert !IsBlank(FieldOf(m, DrugName)) && !IsBlank(FieldOf(m, Dosage));
      assert !IsBlank(FieldOf(m, Frequency)) && !IsBlank(FieldOf(m, Duration));
    } else {
      var f :| IsBlank(FieldOf(m, f));
      match f
      case DrugName =>
      case Dosage =>
      case Frequency =>
      case Duration =>
    }
  }

  /** The submission gate accepts exactly the lists whose every line is
      complete. */
  lemma CanSubmitIffComplete(list: seq<Medicine>)
    ensures CanSubmit(list) <==> forall i :: 0 <= i < |list| ==> Complete(list[i])
  {
    forall i | 0 <= i < |list| {
      CompleteIffFields(list[i]);
    }
  }

  /** A line is complete exactly when none of its inputs is made only of
      whitespace (an empty input included). */
  lemma CompleteIffNoSpaceOnly(m: Medicine)
    ensures Complete(m) <==> forall f :: !AllSpace(FieldOf(m, f))
  {
    forall f {
      BlankIffAllSpace(FieldOf(m, f));
    }
  }

  /** The form as first opened cannot be submitted. */
  lemma InitialBlocked()
    ensures !CanSubmit(Initial())
  {
    assert Initial()[0].drugName == "";
    assert Trim("") == "";
  }

  /** The `patientId` the payload carries: `appointment?.patientId?._id ||
      appointment?.patientId`. */
  datatype PatientField = Id(id: string) | WholeRecord | NullField | Absent

  /** `appointment` is `None` while the appointment has not loaded. */
  function PatientIdOf(appointment: Option<ClientLists.Ref>): (p: PatientField)
    ensures appointment.None? <==> p.Absent?
    ensures p.NullField? <==> appointment == Some(ClientLists.Null)
    ensures forall id :: p == Id(id) <==>
      appointment.Some? && ClientLists.RefId(appointment.value) == Ok(Some(id))
  {
    match appointment
    case None => Absent
    case Some(r) =>
      match r
      case Raw(id) => Id(id)
      case Populated(id) => if id.Some? && id.value != "" then Id(id.value) else WholeRecord
      case Null => NullField
  }

  /** What submitting sends. */
  datatype Payload = Payload(appointmentId: string, patientId: PatientField, items: seq<Medicine>, additionalNotes: string)

  /** The outcome of pressing submit: an error on the form, or the request. */
  datatype Submission = Blocked(error: string) | Send(payload: Payload)

  const IncompleteError := "Please fill in all medicine fields"

  function Submit(appointmentId: string, appointment: Option<ClientLists.Ref>, list: seq<Medicine>, notes: string): (s: Submission)
    ensures s.Blocked? <==> exists i :: 0 <= i < |list| && !Complete(list[i])
    ensures s.Blocked? ==> s.error == IncompleteError
    ensures s.Send? ==>
      && s.payload.items == list
      && s.payload.appointmentId == appointmentId
      && s.payload.additionalNotes == notes
      && s.payload.patientId == PatientIdOf(appointment)
  {
    CanSubmitIffComplete(list);
    if CanSubmit(list) then Send(Payload(appointmentId, PatientIdOf(appointment), list, notes))
    else Blocked(IncompleteError)
  }
}

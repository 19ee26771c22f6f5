/** Lists the doctor's and the patient's pages compute from what the server
    sends: the completed appointments still waiting for a prescription, the
    completed appointments still waiting for the patient's review, and the
    star row of a review.
 */
module ClientLists {

  import opened Wrappers
  import opened Text
  import Seqs

  /** A reference to another record as the pages receive it: the id itself,
      the populated record (whose `_id` may be missing), or `null`. */
  datatype Ref = Raw(id: string) | Populated(recordId: Option<string>) | Null

  /** `ref._id || ref` read as an id: the populated record's id when it has
      a non-empty one, the raw id, and otherwise no string at all (an object
      without an id, which equals no id). `None` for `null`, where reading
      `._id` throws. */
  function RefId(r: Ref): (v: Result<Option<string>>)
    ensures r.Null? <==> v.Err?
    ensures r.Raw? ==> v == Ok(Some(r.id))
    ensures r.Populated? ==> v == Ok(if r.recordId.Some? && r.recordId.value != "" then r.recordId else None)
  {
    match r
    case Raw(id) => Ok(Some(id))
    case Populated(id) => Ok(if id.Some? && id.value != "" then id else None)
    case Null => Err(InternalError)
  }

  /** `String(ref?._id || ref)`: the text the review page compares with the
      signed-in user's id. */
  function RefText(r: Ref): string {
    match r
    case Raw(id) => id
    case Populated(id) => if id.Some? && id.value != "" then id.value else "[object Object]"
    case Null => "null"
  }

  /** An appointment as the pages receive it. */
  datatype Appt = Appt(id: string, status: Option<string>, patient: Ref)

  /** `(appt.status || "").toUpperCase().trim() === "COMPLETED"`. */
  predicate IsCompleted(status: Option<string>) {
    Trim(Upper(status.GetOr(""))) == "COMPLETED"
  }

  /** A prescription or a review: the appointment it was written for, and
      (for a review) its rating. */
  datatype Written = Written(appointmentId: Ref, rating: real)

  /** `written.map(w => w.appointmentId._id || w.appointmentId)`; a `null`
      appointment makes the whole page fail to load. */
  function WrittenIds(ws: seq<Written>): (r: Result<seq<Option<string>>>)
    ensures r.Err? <==> exists i :: 0 <= i < |ws| && ws[i].appointmentId.Null?
    ensures r.Ok? ==> |r.value| == |ws| && forall i :: 0 <= i < |ws| ==> Ok(r.value[i]) == RefId(ws[i].appointmentId)
  {
    if |ws| == 0 then Ok([])
    else
      match RefId(ws[0].appointmentId)
      case Err(c) => Err(c)
      case Ok(first) =>
        match WrittenIds(ws[1..])
        case Err(c) => Err(c)
        case Ok(rest) => Ok([first] + rest)
  }

  /** Writing one more record adds its id at the end. */
  lemma {:induction false} WrittenIdsAppend(ws: seq<Written>, w: Written)
    requires WrittenIds(ws).Ok? && !w.appointmentId.Null?
    ensures WrittenIds(ws + [w]) == Ok(WrittenIds(ws).value + [RefId(w.appointmentId).value])
  {
    if |ws| == 0 {
      assert ws + [w] == [w];
      assert [w][1..] == [];
      assert WrittenIds(ws).value == [];
      var x := RefId(w.appointmentId).value;
      assert WrittenIds([w]) == Ok([x] + []);
      assert WrittenIds(ws + [w]) == WrittenIds([w]);
      assert [x] + [] == WrittenIds(ws).value + [x];
    } else {
      assert (ws + [w])[0] == ws[0];
      assert (ws + [w])[1..] == ws[1..] + [w];
      var first := RefId(ws[0].appointmentId).value;
      var rest := WrittenIds(ws[1..]).value;
      var x := RefId(w.appointmentId).value;
      assert WrittenIds(ws).value == [first] + rest;
      WrittenIdsAppend(ws[1..], w);
      assert WrittenIds(ws + [w]) == Ok([first] + (rest + [x]));
      assert [first] + (rest + [x]) == ([first] + rest) + [x];
    }
  }

  /** Some prescription or review was written for appointment `id`. */
  predicate Covered(ids: seq<Option<string>>, id: string) {
    Some(id) in ids
  }

  // ---------------------------------------------------------------------------
  // The doctor's prescriptions page

  /** What the prescriptions page shows: the appointments waiting for a
      prescription, and every prescription written. */
  datatype PrescriptionsPage = PrescriptionsPage(pending: seq<Appt>, history: seq<Written>)

  /** An appointment waits for a prescription when it is completed and no
      prescription names it. */
  function WaitingForPrescription(ids: seq<Option<string>>): Appt -> bool {
    (a: Appt) => IsCompleted(a.status) && !Covered(ids, a.id)
  }

  /** The load of the doctor's prescriptions page. */
  function PrescriptionsPageOf(appts: seq<Appt>, prescriptions: seq<Written>): (r: Result<PrescriptionsPage>)
    ensures r.Err? <==> WrittenIds(prescriptions).Err?
    ensures r.Ok? ==> r.value.history == prescriptions
    ensures r.Ok? ==> |r.value.pending| <= |appts|
    ensures r.Ok? ==> forall a :: a in appts ==>
      (a in r.value.pending <==> IsCompleted(a.status) && !Covered(WrittenIds(prescriptions).value, a.id))
    ensures r.Ok? ==> forall i :: 0 <= i < |r.value.pending| ==> r.value.pending[i] in appts
    ensures r.Ok? ==> r.value.pending == Seqs.Filter(appts, WaitingForPrescription(WrittenIds(prescriptions).value))
  {
    match WrittenIds(prescriptions)
    case Err(c) => Err(c)
    case Ok(ids) =>
      var pending := Seqs.Filter(appts, WaitingForPrescription(ids));
      Ok(PrescriptionsPage(pending, prescriptions))
  }

  /** A prescription names its appointment the same way whether the server
      sent the appointment populated or as a bare id. */
  lemma PopulatedOrRawAlike(appts: seq<Appt>, before: seq<Written>, id: string, rating: real)
    requires id != ""
    requires WrittenIds(before).Ok?
    ensures var a := PrescriptionsPageOf(appts, before + [Written(Raw(id), rating)]);
      var b := PrescriptionsPageOf(appts, before + [Written(Populated(Some(id)), rating)]);
      a.Ok? && b.Ok? && a.value.pending == b.value.pending
  {
    WrittenIdsAppend(before, Written(Raw(id), rating));
    WrittenIdsAppend(before, Written(Populated(Some(id)), rating));
  }

  /** Writing a prescription for a pending appointment takes exactly that
      appointment off the pending list. */
  lemma PrescribingLeavesList(appts: seq<Appt>, prescriptions: seq<Written>, appt: Appt, rating: real)
    requires PrescriptionsPageOf(appts, prescriptions).Ok?
    ensures var after := PrescriptionsPageOf(appts, prescriptions + [Written(Raw(appt.id), rating)]);
      && after.Ok?
      && appt !in after.value.pending
      && forall a :: a in appts && a.id != appt.id ==>
           (a in after.value.pending <==> a in PrescriptionsPageOf(appts, prescriptions).value.pending)
  {
    var ws := prescriptions + [Written(Raw(appt.id), rating)];
    WrittenIdsAppend(prescriptions, Written(Raw(appt.id), rating));
    var before := WrittenIds(prescriptions).value;
    var ids := WrittenIds(ws).value;
    assert ids == before + [Some(appt.id)];
    assert Covered(ids, appt.id);
    forall a | a in appts && a.id != appt.id
      ensures Covered(ids, a.id) <==> Covered(before, a.id)
    {
      assert Some(a.id) in ids <==> Some(a.id) in before || Some(a.id) == Some(appt.id);
    }
  }

  // ---------------------------------------------------------------------------
  // The patient's reviews page

  /** What the reviews page shows: the appointments waiting for a review,
      and every review submitted. */
  datatype ReviewsPage = ReviewsPage(pending: seq<Appt>, submitted: seq<Written>)

  /** An appointment waits for the user's review when it is completed, it
      is theirs, and no review names it. */
  function WaitingForReview(ids: seq<Option<string>>, userId: string): Appt -> bool {
    (a: Appt) => IsCompleted(a.status) && RefText(a.patient) == userId && !Covered(ids, a.id)
  }

  /** The load of the patient's reviews page for the user with id `userId`. */
  function ReviewsPageOf(appts: seq<Appt>, reviews: seq<Written>, userId: string): (r: Result<ReviewsPage>)
    ensures r.Err? <==> WrittenIds(reviews).Err?
    ensures r.Ok? ==> r.value.submitted == reviews
    ensures r.Ok? ==> forall a :: a in appts ==>
      (a in r.value.pending <==>
        IsCompleted(a.status) && RefText(a.patient) == userId && !Covered(WrittenIds(reviews).value, a.id))
    ensures r.Ok? ==> forall i :: 0 <= i < |r.value.pending| ==> r.value.pending[i] in appts
    ensures r.Ok? ==> r.value.pending == Seqs.Filter(appts, WaitingForReview(WrittenIds(reviews).value, userId))
  {
    match WrittenIds(reviews)
    case Err(c) => Err(c)
    case Ok(ids) => Ok(ReviewsPage(Seqs.Filter(appts, WaitingForReview(ids, userId)), reviews))
  }

  /** Status matching ignores case: two statuses that differ only in
      letter case are judged alike. */
  lemma CompletedIgnoresCase(s: string, t: string)
    requires |s| == |t| && forall i :: 0 <= i < |s| ==> UpperChar(s[i]) == UpperChar(t[i])
    ensures IsCompleted(Some(s)) <==> IsCompleted(Some(t))
  {
    assert Upper(s) == Upper(t) by {
      assert forall i :: 0 <= i < |s| ==> Upper(s)[i] == Upper(t)[i];
    }
  }

  /** Status matching ignores leading whitespace. */
  lemma CompletedIgnoresSpace(w: string, s: string)
    requires AllSpace(w)
    ensures IsCompleted(Some(w + s)) <==> IsCompleted(Some(s))
  {
    var u := Upper(w + s);
    assert u[|w|..] == Upper(s) by {
      assert forall i :: 0 <= i < |s| ==> u[|w|..][i] == Upper(s)[i];
    }
    assert AllSpace(u[..|w|]) by {
      assert forall i :: 0 <= i < |w| ==> u[..|w|][i] == UpperChar(w[i]) == w[i];
    }
    TrimSkip(u, |w|);
  }

  /** An appointment with no status is never pending. */
  lemma MissingStatusNotCompleted()
    ensures !IsCompleted(None)
  {
    assert Upper("") == "";
    assert Trim("") == "";
  }

  /** The owner test accepts the patient populated or as a bare id, and
      refuses a populated patient without an id and a missing patient. */
  lemma OwnerTest(userId: string)
    requires userId != "" && userId != "[object Object]" && userId != "null"
    ensures RefText(Raw(userId)) == userId && RefText(Populated(Some(userId))) == userId
    ensures RefText(Populated(None)) != userId && RefText(Null) != userId
  {
  }

  // ---------------------------------------------------------------------------
  // renderStars

  /** The star row of a rating: star `i` (from 1 to 5) is filled when
      `i <= rating`. */
  function Stars(rating: real): (r: seq<bool>)
    ensures |r| == 5
    ensures forall i :: 0 <= i < 5 ==> (r[i] <==> (i + 1) as real <= rating)
  {
    seq(5, i requires 0 <= i < 5 => (i + 1) as real <= rating)
  }

  /** The filled stars come first, and there are as many as the whole part
      of the rating, between none and five. */
  lemma StarsArePrefix(rating: real)
    ensures var r := Stars(rating);
      var n := if rating < 1.0 then 0 else if rating >= 5.0 then 5 else rating.Floor;
      forall i :: 0 <= i < 5 ==> (r[i] <==> i < n)
  {
  }
}

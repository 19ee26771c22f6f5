/** Patient reviews of completed appointments and the rating aggregate kept
    on the doctor's profile.
 */
module Reviews {

  import opened Wrappers
  import opened Js
  import opened Entities
  import opened Profiles
  import Seqs
  import Pagination

  /** A stored review; `createdAt` is in milliseconds. */
  datatype Review = Review(
    appointmentId: Id,
    patientId: Id,
    doctorId: Id,
    rating: real,
    comment: string,
    createdAt: int)

  /** What the review schema demands: a rating within [1, 5] and a comment of
      at most 500 characters. */
  predicate ValidReview(r: Review) {
    1.0 <= r.rating <= 5.0 && |r.comment| <= 500
  }

  /** Every stored review passed the schema. */
  predicate AllValid(reviews: seq<Review>) {
    forall i :: 0 <= i < |reviews| ==> ValidReview(reviews[i])
  }

  /** The unique index on `appointmentId`: at most one review per appointment. */
  predicate OnePerAppointment(reviews: seq<Review>) {
    forall i, j :: 0 <= i < j < |reviews| ==> reviews[i].appointmentId != reviews[j].appointmentId
  }

  /** The filter `{ doctorId }`. */
  function ByDoctor(doctorId: Id): Review -> bool {
    (x: Review) => x.doctorId == doctorId
  }

  /** The sort key `createdAt`. */
  function CreatedAt(x: Review): int {
    x.createdAt
  }

  /** `Review.findOne({ appointmentId })` finds something. */
  predicate HasReview(reviews: seq<Review>, appointmentId: Id) {
    exists i | 0 <= i < |reviews| :: reviews[i].appointmentId == appointmentId
  }

  /** The body of a review submission. The appointment id is `None` when
      the string sent is not a well-formed id: the schema only asks for a
      non-empty string, and the store cannot cast it. */
  datatype ReviewRequest = ReviewRequest(appointmentId: Option<Id>, rating: real, comment: Option<string>)

  /** The appointment the request names exists. */
  predicate Known(appointments: map<Id, Appointment>, req: ReviewRequest) {
    req.appointmentId.Some? && req.appointmentId.value in appointments
  }

  /** `createReview` at time `now`. The checks run in this order and the
      first failure answers: the caller is not a patient (403), the
      appointment id is malformed (the lookup throws, 500), the appointment
      does not exist (404), it is not the caller's (403), it is not
      `COMPLETED` (400), it already has a review (400). The doctor comes
      from the appointment, never from the request; a missing comment is
      stored as `''`; a review the schema refuses is a 500. */
  function CreateReview(reviews: seq<Review>, appointments: map<Id, Appointment>, caller: Caller,
                        req: ReviewRequest, now: int): (r: Result<seq<Review>>)
    ensures caller.role != Patient ==> r == Err(Forbidden)
    ensures caller.role == Patient && req.appointmentId.None? ==> r == Err(InternalError)
    ensures caller.role == Patient && req.appointmentId.Some? && !Known(appointments, req) ==> r == Err(NotFound)
    ensures (caller.role == Patient && Known(appointments, req)
             && appointments[req.appointmentId.value].patientId != caller.id) ==> r == Err(Forbidden)
    ensures (caller.role == Patient && Known(appointments, req)
             && appointments[req.appointmentId.value].patientId == caller.id
             && appointments[req.appointmentId.value].status != "COMPLETED") ==> r == Err(BadRequest)
    ensures r.Ok? ==> Known(appointments, req) && !HasReview(reviews, req.appointmentId.value)
    ensures r.Ok? ==> |r.value| == |reviews| + 1 && r.value[..|reviews|] == reviews
    ensures r.Ok? ==>
      var added := r.value[|reviews|];
      && added.appointmentId == req.appointmentId.value
      && added.patientId == caller.id
      && added.doctorId == appointments[req.appointmentId.value].doctorId
      && added.comment == (if Filled(req.comment) then req.comment.value else "")
      && ValidReview(added)
    ensures r.Ok? && OnePerAppointment(reviews) ==> OnePerAppointment(r.value)
    ensures r.Ok? && AllValid(reviews) ==> AllValid(r.value)
  {
    if caller.role != Patient then Err(Forbidden)
    else if req.appointmentId.None? then Err(InternalError)
    else if req.appointmentId.value !in appointments then Err(NotFound)
    else
      var id := req.appointmentId.value;
      var appt := appointments[id];
      if appt.patientId != caller.id then Err(Forbidden)
      else if appt.status != "COMPLETED" then Err(BadRequest)
      else if HasReview(reviews, id) then Err(BadRequest)
      else
        var review := Review(id, caller.id, appt.doctorId, req.rating,
                             if Filled(req.comment) then req.comment.value else "", now);
        if !ValidReview(review) then Err(InternalError)
        else
          assert (reviews + [review])[..|reviews|] == reviews;
          Ok(reviews + [review])
  }

  /** Behind the review schema (a rating within [1, 5], a comment of at most
      500 characters) the only 500 left is a patient's malformed appointment
      id, and a submission succeeds exactly when the caller is the patient
      of a completed appointment that has no review yet. */
  lemma SchemaRequestSaves(reviews: seq<Review>, appointments: map<Id, Appointment>, caller: Caller,
                           req: ReviewRequest, now: int)
    requires 1.0 <= req.rating <= 5.0
    requires req.comment.None? || |req.comment.value| <= 500
    ensures CreateReview(reviews, appointments, caller, req, now) == Err(InternalError) <==>
      caller.role == Patient && req.appointmentId.None?
    ensures CreateReview(reviews, appointments, caller, req, now).Ok? <==>
      && caller.role == Patient && Known(appointments, req)
      && appointments[req.appointmentId.value].patientId == caller.id
      && appointments[req.appointmentId.value].status == "COMPLETED"
      && !HasReview(reviews, req.appointmentId.value)
  {
  }

  /** After a successful submission the appointment has exactly one review. */
  lemma {:induction false} ExactlyOneAfterCreate(reviews: seq<Review>, appointments: map<Id, Appointment>,
                                                 caller: Caller, req: ReviewRequest, now: int)
    requires CreateReview(reviews, appointments, caller, req, now).Ok?
    ensures var r := CreateReview(reviews, appointments, caller, req, now).value;
      Seqs.Count(r, (x: Review) => x.appointmentId == req.appointmentId.value) == 1
  {
    var r := CreateReview(reviews, appointments, caller, req, now).value;
    var p := (x: Review) => x.appointmentId == req.appointmentId.value;
    assert r == reviews + [r[|reviews|]];
    Seqs.CountAppend(reviews, [r[|reviews|]], p);
    assert Seqs.Count([r[|reviews|]], p) == 1 by {
      assert [r[|reviews|]][1..] == [];
    }
  }

  // ---------------------------------------------------------------------------
  // The rating aggregate

  /** The sum of a list of ratings. */
  function Sum(xs: seq<real>): real {
    if |xs| == 0 then 0.0 else xs[0] + Sum(xs[1..])
  }

  /** A sum of ratings each within [lo, hi] is within [n*lo, n*hi]. */
  lemma {:induction false} SumBounds(xs: seq<real>, lo: real, hi: real)
    requires forall i :: 0 <= i < |xs| ==> lo <= xs[i] <= hi
    ensures (|xs| as real) * lo <= Sum(xs) <= (|xs| as real) * hi
  {
    if |xs| > 0 {
      SumBounds(xs[1..], lo, hi);
      assert (|xs| as real) * lo == lo + ((|xs| - 1) as real) * lo;
      assert (|xs| as real) * hi == hi + ((|xs| - 1) as real) * hi;
    }
  }

  /** The mean of ratings within [1, 5] is within [1, 5]. */
  lemma MeanWithinRatings(xs: seq<real>)
    requires |xs| > 0
    ensures (forall i :: 0 <= i < |xs| ==> 1.0 <= xs[i] <= 5.0) ==> 1.0 <= Sum(xs) / (|xs| as real) <= 5.0
  {
    if forall i :: 0 <= i < |xs| ==> 1.0 <= xs[i] <= 5.0 {
      SumBounds(xs, 1.0, 5.0);
      QuotientBounds(Sum(xs), |xs| as real, 1.0, 5.0);
    }
  }

  /** Dividing bounds `n*lo <= t <= n*hi` by a positive `n`. */
  lemma QuotientBounds(t: real, n: real, lo: real, hi: real)
    requires n > 0.0 && n * lo <= t <= n * hi
    ensures lo <= t / n <= hi
  {
    var m := t / n;
    assert t == m * n;
  }

  /** `parseFloat(x.toFixed(1))` for a non-negative `x`: rounding to one
      decimal place, halves rounding up. The result is within 0.05 of `x`,
      and a value within [1, 5] stays within [1, 5]. */
  function Round1(x: real): (y: real)
    ensures x - 0.05 < y <= x + 0.05
    ensures 1.0 <= x <= 5.0 ==> 1.0 <= y <= 5.0
  {
    ((10.0 * x + 0.5).Floor as real) / 10.0
  }

  /** The ratings of a doctor's reviews, in stored order. */
  function RatingsOf(reviews: seq<Review>, doctorId: Id): (xs: seq<real>)
    ensures |xs| == Seqs.Count(reviews, ByDoctor(doctorId))
    ensures AllValid(reviews) ==> forall i :: 0 <= i < |xs| ==> 1.0 <= xs[i] <= 5.0
  {
    if |reviews| == 0 then []
    else
      var rest := RatingsOf(reviews[1..], doctorId);
      assert AllValid(reviews) ==> AllValid(reviews[1..]) && ValidReview(reviews[0]) by {
        if AllValid(reviews) {
          forall i | 0 <= i < |reviews| - 1 ensures ValidReview(reviews[1..][i]) {
            assert reviews[1..][i] == reviews[i + 1];
          }
        }
      }
      if reviews[0].doctorId == doctorId then [reviews[0].rating] + rest else rest
  }

  /** The aggregate fields of a profile. */
  datatype RatingSummary = RatingSummary(avgRating: Option<real>, totalReviews: Option<nat>)

  /** `updateDoctorAverageRating`'s computation: both fields unset with no
      reviews; otherwise the count and the rounded mean. With every rating
      in [1, 5] the mean stays in [1, 5]. */
  function Summarize(xs: seq<real>): (s: RatingSummary)
    ensures |xs| == 0 <==> s == RatingSummary(None, None)
    ensures |xs| > 0 ==> s.totalReviews == Some(|xs|) && s.avgRating.Some?
    ensures |xs| > 0 ==> Sum(xs) / (|xs| as real) - 0.05 < s.avgRating.value <= Sum(xs) / (|xs| as real) + 0.05
    ensures (forall i :: 0 <= i < |xs| ==> 1.0 <= xs[i] <= 5.0) && |xs| > 0 ==>
      1.0 <= s.avgRating.value <= 5.0
  {
    if |xs| == 0 then RatingSummary(None, None)
    else
      var n := |xs| as real;
      var mean := Sum(xs) / n;
      MeanWithinRatings(xs);
      RatingSummary(Some(Round1(mean)), Some(|xs|))
  }

  /** `updateDoctorAverageRating(doctorId)` against the reviews as they now
      stand. The write bypasses the schema. When it fails (`succeeded` is
      false) the error is logged and swallowed, leaving the directory as it
      was; a doctor without a profile is left alone too. */
  function UpdateAverageRating(dir: Directory, reviews: seq<Review>, doctorId: Id, succeeded: bool): (d: Directory)
    ensures d.users == dir.users && d.profiles.Keys == dir.profiles.Keys
    ensures !succeeded || doctorId !in dir.profiles ==> d == dir
    ensures forall u :: u in dir.profiles && u != doctorId ==> d.profiles[u] == dir.profiles[u]
    ensures succeeded && doctorId in dir.profiles ==>
      var s := Summarize(RatingsOf(reviews, doctorId));
      d.profiles[doctorId] == dir.profiles[doctorId].(avgRating := s.avgRating, totalReviews := s.totalReviews)
  {
    if !succeeded || doctorId !in dir.profiles then dir
    else
      var s := Summarize(RatingsOf(reviews, doctorId));
      dir.(profiles := dir.profiles[doctorId := dir.profiles[doctorId].(avgRating := s.avgRating, totalReviews := s.totalReviews)])
  }

  /** The whole submission: the review, then the aggregate for the
      appointment's doctor. A failing aggregate does not turn a stored
      review into an error. */
  function SubmitReview(reviews: seq<Review>, dir: Directory, appointments: map<Id, Appointment>, caller: Caller,
                        req: ReviewRequest, now: int, aggregateSucceeded: bool): (r: Result<(seq<Review>, Directory)>)
    ensures r.Ok? <==> CreateReview(reviews, appointments, caller, req, now).Ok?
    ensures r.Ok? ==> r.value.1.users == dir.users && r.value.1.profiles.Keys == dir.profiles.Keys
    ensures r.Ok? && aggregateSucceeded && AllValid(reviews) ==>
      var doctorId := appointments[req.appointmentId.value].doctorId;
      doctorId in dir.profiles ==>
        var p := r.value.1.profiles[doctorId];
        && p.totalReviews == Some(Seqs.Count(r.value.0, ByDoctor(doctorId)))
        && p.avgRating.Some? && 1.0 <= p.avgRating.value <= 5.0
  {
    var stored :- CreateReview(reviews, appointments, caller, req, now);
    var doctorId := appointments[req.appointmentId.value].doctorId;
    assert stored[|reviews|].doctorId == doctorId;
    assert Seqs.Count(stored, ByDoctor(doctorId)) > 0;
    Ok((stored, UpdateAverageRating(dir, stored, doctorId, aggregateSucceeded)))
  }

  // ---------------------------------------------------------------------------
  // Listing

  /** A page of a doctor's reviews with the pagination block. */
  datatype ReviewPage = ReviewPage(items: seq<Review>, page: int, limit: int, total: nat, pages: int)

  /** The doctor's reviews, newest first: `find({ doctorId }).sort({ createdAt: -1 })`. */
  function ReviewsOfDoctor(reviews: seq<Review>, doctorId: Id): (s: seq<Review>)
    ensures |s| == Seqs.Count(reviews, ByDoctor(doctorId))
    ensures forall i :: 0 <= i < |s| ==> s[i].doctorId == doctorId && s[i] in reviews
    ensures forall x :: x in reviews && x.doctorId == doctorId ==> x in s
    ensures Seqs.SortedDesc(s, CreatedAt)
  {
    var s := Seqs.SortedFilter(reviews, ByDoctor(doctorId), CreatedAt);
    assert forall i :: 0 <= i < |s| ==> ByDoctor(doctorId)(s[i]);
    assert forall x :: x in reviews && x.doctorId == doctorId ==> ByDoctor(doctorId)(x);
    s
  }

  /** The doctor's sorted reviews hold no review more often than the store. */
  lemma ReviewsOfDoctorWithin(reviews: seq<Review>, doctorId: Id)
    ensures multiset(ReviewsOfDoctor(reviews, doctorId)) <= multiset(reviews)
  {
    Seqs.SortedFilterPermutes(reviews, ByDoctor(doctorId), CreatedAt);
  }

  /** `getDoctorReviews` for the path parameter `doctorIdParam`, `None`
      when it is not a well-formed id: the query throws and the handler
      answers 500. A well-formed id gets the doctor's page. */
  function DoctorReviews(reviews: seq<Review>, doctorIdParam: Option<Id>, pageParam: Option<int>, limitParam: Option<int>)
    : (r: Result<ReviewPage>)
    ensures r.Err? <==>
      doctorIdParam.None? || Pagination.Skip(Pagination.ParamOr(pageParam, 1), Pagination.ParamOr(limitParam, 10)) < 0
    ensures r.Err? ==> r.code == InternalError
    ensures doctorIdParam.Some? ==> r == ReviewPageOf(reviews, doctorIdParam.value, pageParam, limitParam)
  {
    match doctorIdParam
    case None => Err(InternalError)
    case Some(doctorId) => ReviewPageOf(reviews, doctorId, pageParam, limitParam)
  }

  /** The page `getDoctorReviews` answers for a well-formed doctor id: the
      doctor's reviews newest first, page 1 and limit 10 by default; a page
      that makes `skip` negative is a store error. The page is exactly the
      window `(page - 1) * limit` of the doctor's sorted reviews. */
  function ReviewPageOf(reviews: seq<Review>, doctorId: Id, pageParam: Option<int>, limitParam: Option<int>)
    : (r: Result<ReviewPage>)
    ensures r.Err? <==> Pagination.Skip(Pagination.ParamOr(pageParam, 1), Pagination.ParamOr(limitParam, 10)) < 0
    ensures r.Err? ==> r.code == InternalError
    ensures r.Ok? ==> r.value.total == Seqs.Count(reviews, ByDoctor(doctorId))
    ensures r.Ok? ==>
      Pagination.Window(ReviewsOfDoctor(reviews, doctorId),
                        Pagination.Skip(r.value.page, r.value.limit), r.value.limit) == Ok(r.value.items)
    ensures r.Ok? ==> forall i :: 0 <= i < |r.value.items| ==>
      r.value.items[i].doctorId == doctorId && r.value.items[i] in reviews
    ensures r.Ok? ==> multiset(r.value.items) <= multiset(reviews)
    ensures r.Ok? ==> Seqs.SortedDesc(r.value.items, CreatedAt)
    ensures r.Ok? && r.value.limit > 0 ==> |r.value.items| <= r.value.limit
    ensures r.Ok? ==> r.value.page == Pagination.ParamOr(pageParam, 1)
    ensures r.Ok? ==> r.value.limit == Pagination.ParamOr(limitParam, 10) && r.value.limit != 0
    ensures r.Ok? ==> r.value.pages == Pagination.Pages(r.value.total, r.value.limit)
  {
    var page := Pagination.ParamOr(pageParam, 1);
    var limit := Pagination.ParamOr(limitParam, 10);
    var sorted := ReviewsOfDoctor(reviews, doctorId);
    var skip := Pagination.Skip(page, limit);
    var items :- Pagination.Window(sorted, skip, limit);
    ReviewsOfDoctorWithin(reviews, doctorId);
    Pagination.WindowFacts(reviews, sorted, ByDoctor(doctorId), CreatedAt, skip, limit);
    Ok(ReviewPage(items, page, limit, |sorted|, Pagination.Pages(|sorted|, limit)))
  }
}

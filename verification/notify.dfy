/** The event-to-recipient table of the notification helpers: which
    notifications an appointment, payment, prescription or verification event
    produces, as the drafts handed to `createNotification`, in order.
 */
module Notify {

  import opened Wrappers
  import opened NotificationModel
  import Entities
  import Js
  import NotificationsController

  /** A draft addressed to one user under one role. */
  predicate AddressedTo(d: Draft, user: Id, role: Audience) {
    d.recipientUserId == Some(user) && d.recipientRole == Some(role)
  }

  /** The appointment metadata every appointment notification carries. */
  function AppointmentMeta(appointmentId: Id): map<string, Meta> {
    map["appointmentId" := MId(appointmentId)]
  }

  /** `createAppointmentNotification(appointment, event)`: `BOOKED` tells the
      doctor, `CONFIRMED` tells the patient, `CANCELLED` tells the patient and
      then the doctor, and any other event tells nobody. */
  function AppointmentDrafts(appointmentId: Id, appt: Entities.Appointment, event: string): (ds: seq<Draft>)
    ensures event == "BOOKED" ==> |ds| == 1 && AddressedTo(ds[0], appt.doctorId, ToDoctor)
    ensures event == "CONFIRMED" ==> |ds| == 1 && AddressedTo(ds[0], appt.patientId, ToPatient)
    ensures event == "CANCELLED" ==>
      |ds| == 2 && AddressedTo(ds[0], appt.patientId, ToPatient) && AddressedTo(ds[1], appt.doctorId, ToDoctor)
    ensures event != "BOOKED" && event != "CONFIRMED" && event != "CANCELLED" ==> ds == []
    ensures forall i :: 0 <= i < |ds| ==>
      ds[i].kind == Appointment && ds[i].metadata == Some(AppointmentMeta(appointmentId))
  {
    var meta := Some(AppointmentMeta(appointmentId));
    if event == "BOOKED" then
      [Draft(Some(appt.doctorId), Some(ToDoctor), Appointment, "New Appointment Request",
             "You have a new appointment request", meta)]
    else if event == "CONFIRMED" then
      [Draft(Some(appt.patientId), Some(ToPatient), Appointment, "Appointment Confirmed",
             "Your appointment has been confirmed", meta)]
    else if event == "CANCELLED" then
      [Draft(Some(appt.patientId), Some(ToPatient), Appointment, "Appointment Cancelled",
             "Your appointment has been cancelled", meta),
       Draft(Some(appt.doctorId), Some(ToDoctor), Appointment, "Appointment Cancelled",
             "An appointment with you has been cancelled", meta)]
    else []
  }

  /** Every appointment notification goes to a party of the appointment,
      under that party's own role, and no event notifies the same party twice. */
  lemma AppointmentDraftsReachParties(appointmentId: Id, appt: Entities.Appointment, event: string)
    ensures var ds := AppointmentDrafts(appointmentId, appt, event);
      forall i :: 0 <= i < |ds| ==>
        AddressedTo(ds[i], appt.patientId, ToPatient) || AddressedTo(ds[i], appt.doctorId, ToDoctor)
    ensures var ds := AppointmentDrafts(appointmentId, appt, event);
      forall i, j :: 0 <= i < j < |ds| ==> ds[i].recipientRole != ds[j].recipientRole
  {
  }

  /** `createPaymentNotification(payment, event)`: nothing when the
      appointment is not found; `SUCCESS` and `REFUNDED` tell the patient
      only; any other event tells nobody. */
  function PaymentDrafts(paymentId: Id, appointmentId: Id, appt: Option<Entities.Appointment>, event: string): (ds: seq<Draft>)
    ensures appt.None? ==> ds == []
    ensures appt.Some? && (event == "SUCCESS" || event == "REFUNDED") ==>
      |ds| == 1 && AddressedTo(ds[0], appt.value.patientId, ToPatient) && ds[0].kind == Payment
    ensures event != "SUCCESS" && event != "REFUNDED" ==> ds == []
  {
    if appt.None? then []
    else
      var meta := Some(map["paymentId" := MId(paymentId), "appointmentId" := MId(appointmentId)]);
      var patient := appt.value.patientId;
      if event == "SUCCESS" then
        [Draft(Some(patient), Some(ToPatient), Payment, "Payment Successful",
               "Your payment has been processed successfully", meta)]
      else if event == "REFUNDED" then
        [Draft(Some(patient), Some(ToPatient), Payment, "Refund Processed",
               "Your refund has been processed", meta)]
      else []
  }

  /** `createPrescriptionNotification(prescription)`: one notification, to the patient. */
  function PrescriptionDraft(prescriptionId: Id, patientId: Id, doctorId: Id, appointmentId: Id): (d: Draft)
    ensures AddressedTo(d, patientId, ToPatient) && d.kind == Prescription
  {
    Draft(Some(patientId), Some(ToPatient), Prescription, "New Prescription",
          "You have received a new prescription",
          Some(map["prescriptionId" := MId(prescriptionId), "appointmentId" := MId(appointmentId),
                   "doctorId" := MId(doctorId)]))
  }

  /** A payment notification is stored whenever its save succeeds, carries
      the payment and appointment ids, and is seen (and may be marked read)
      by the appointment's patient and by no other user. */
  lemma PaymentDraftsReachPatient(paymentId: Id, appointmentId: Id, appt: Entities.Appointment, event: string,
                                  id: Id, now: int, caller: Entities.Caller)
    ensures var ds := PaymentDrafts(paymentId, appointmentId, Some(appt), event);
      forall i :: 0 <= i < |ds| ==>
        && Create(ds[i], id, now, true).Some?
        && Create(ds[i], id, now, true).value.metadata
           == map["paymentId" := MId(paymentId), "appointmentId" := MId(appointmentId)]
        && (NotificationsController.Authorized(Create(ds[i], id, now, true).value, caller)
            <==> caller.id == appt.patientId)
  {
  }

  /** The prescription notification is stored whenever its save succeeds,
      carries the prescription, appointment and doctor ids, and is seen by
      the prescription's patient and by no other user. */
  lemma PrescriptionDraftReachesPatient(prescriptionId: Id, patientId: Id, doctorId: Id, appointmentId: Id,
                                        id: Id, now: int, caller: Entities.Caller)
    ensures var n := Create(PrescriptionDraft(prescriptionId, patientId, doctorId, appointmentId), id, now, true);
      && n.Some?
      && n.value.metadata == map["prescriptionId" := MId(prescriptionId), "appointmentId" := MId(appointmentId),
                                 "doctorId" := MId(doctorId)]
      && (NotificationsController.Authorized(n.value, caller) <==> caller.id == patientId)
  {
  }

  /** The message of a rejection: the reason is appended after `: ` only
      when one is given. */
  function RejectionMessage(reason: Option<string>): (m: string)
    ensures !Js.Filled(reason) ==> m == "Your doctor profile has been rejected"
    ensures Js.Filled(reason) ==> m == "Your doctor profile has been rejected" + ": " + reason.value
  {
    "Your doctor profile has been rejected" + (if Js.Filled(reason) then ": " + reason.value else "")
  }

  /** `createVerificationNotification(profile, event, reason)`: `VERIFIED`
      and `REJECTED` each tell the profile's owner (`recipient`, which is
      `None` when the profile's user is missing); any other status tells
      nobody. */
  function VerificationDrafts(recipient: Option<Id>, profileId: Id, event: string, reason: Option<string>): (ds: seq<Draft>)
    ensures event == "VERIFIED" ==>
      ds == [Draft(recipient, Some(ToDoctor), Verification, "Profile Verified",
                   "Your doctor profile has been verified", Some(map["profileId" := MId(profileId)]))]
    ensures event == "REJECTED" ==>
      ds == [Draft(recipient, Some(ToDoctor), Verification, "Profile Rejected", RejectionMessage(reason),
                   Some(map["profileId" := MId(profileId)]))]
    ensures event != "VERIFIED" && event != "REJECTED" ==> ds == []
  {
    var meta := Some(map["profileId" := MId(profileId)]);
    if event == "VERIFIED" then
      [Draft(recipient, Some(ToDoctor), Verification, "Profile Verified",
             "Your doctor profile has been verified", meta)]
    else if event == "REJECTED" then
      [Draft(recipient, Some(ToDoctor), Verification, "Profile Rejected", RejectionMessage(reason), meta)]
    else []
  }

  /** A rejection message ends with the reason exactly when a reason was given. */
  lemma RejectionMessageMentionsReason(reason: Option<string>)
    ensures Js.Filled(reason) <==> |RejectionMessage(reason)| > |"Your doctor profile has been rejected"|
  {
  }
}

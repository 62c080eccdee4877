/**
 * services/prescriptionService.ts: writing a prescription (which
 * completes its report and hands the report to the patient) and the
 * prescription lookups.
 */
module PrescriptionService {
  import opened Wrappers
  import opened Types
  import opened StableSort
  import opened Firestore
  import ReportService

  /** The prescription createPrescription leaves behind, carrying its document id in `prescriptionId`. */
  function NewPrescriptionRecord(
    id: string, now: Timestamp, reportId: string, doctorId: string, patientId: string, diagnosis: string,
    prescriptionText: string, precautions: string, medications: seq<Medication>)
    : (p: Prescription)
    ensures p.prescriptionId == id && p.reportId == reportId && p.medications == medications
  {
    Prescription(id, reportId, doctorId, patientId, diagnosis, prescriptionText, precautions, medications, now, now)
  }

  /** Why createPrescription failed: the report update failed, or handing the report to the patient did. */
  datatype CreateError = CompletionFailed(cause: StoreError) | SendFailed

  /**
   * createPrescription. `newId` is the id `addDoc` allocates; `now` and
   * `completedAt` are the server times of the insert and of the report
   * update. The steps run in order: insert, set `prescriptionId`,
   * markReportAsCompleted, then sendReportToPatient, whose effect is not
   * part of this model: `sendFails` is its outcome. A failing step ends
   * the call and leaves the earlier writes in place. Nothing checks for
   * an existing prescription of the same report.
   */
  method CreatePrescription(
    db: Db, newId: string, now: Timestamp, completedAt: Timestamp, sendFails: bool,
    reportId: string, doctorId: string, patientId: string, diagnosis: string, prescriptionText: string,
    precautions: string, medications: seq<Medication>)
    returns (r: Result<string, CreateError>)
    requires newId !in db.prescriptions
    modifies db
    ensures db.prescriptions == old(db.prescriptions)[newId := NewPrescriptionRecord(newId, now, reportId,
      doctorId, patientId, diagnosis, prescriptionText, precautions, medications)]
    ensures reportId in old(db.reports) ==> db.reports == ReportService.Complete(old(db.reports), reportId, completedAt)
    ensures reportId !in old(db.reports) ==> db.reports == old(db.reports)
    ensures r == if reportId !in old(db.reports) then Failure(CompletionFailed(NoDocument))
      else if sendFails then Failure(SendFailed)
      else Success(newId)
    ensures r.Success? ==> reportId in db.reports && db.reports[reportId].status == Completed
    ensures db.notifications == old(db.notifications) && db.patients == old(db.patients)
    ensures old(db.Valid()) ==> db.Valid()
  {
    var added := NewPrescriptionRecord("", now, reportId, doctorId, patientId, diagnosis, prescriptionText,
      precautions, medications);
    db.prescriptions := db.prescriptions[newId := added];
    db.prescriptions := db.prescriptions[newId := db.prescriptions[newId].(prescriptionId := newId)];
    var completed := ReportService.MarkReportAsCompleted(db, reportId, completedAt);
    if completed.Failure? {
      return Failure(CompletionFailed(completed.error));
    }
    if sendFails {
      return Failure(SendFailed);
    }
    r := Success(newId);
  }

  /** The ids of the prescriptions written for a report. */
  ghost function ReportPrescriptions(prescriptions: map<string, Prescription>, reportId: string): set<string>
  {
    set k | k in prescriptions && prescriptions[k].reportId == reportId
  }

  /**
   * No duplicate check: every createPrescription for a report adds one
   * more prescription of that report, however many it already has.
   */
  lemma {:induction false} EachCallAddsOne(
    prescriptions: map<string, Prescription>, newId: string, now: Timestamp, reportId: string, doctorId: string,
    patientId: string, diagnosis: string, prescriptionText: string, precautions: string, medications: seq<Medication>)
    requires newId !in prescriptions
    ensures var after := prescriptions[newId := NewPrescriptionRecord(newId, now, reportId, doctorId, patientId,
        diagnosis, prescriptionText, precautions, medications)];
      ReportPrescriptions(after, reportId) == ReportPrescriptions(prescriptions, reportId) + {newId}
      && |ReportPrescriptions(after, reportId)| == |ReportPrescriptions(prescriptions, reportId)| + 1
  {
    var created := NewPrescriptionRecord(newId, now, reportId, doctorId, patientId, diagnosis, prescriptionText,
      precautions, medications);
    var after := prescriptions[newId := created];
    assert ReportPrescriptions(after, reportId) == ReportPrescriptions(prescriptions, reportId) + {newId} by {
      forall k ensures k in ReportPrescriptions(after, reportId) <==> k in ReportPrescriptions(prescriptions, reportId) + {newId} {
        if k == newId {
          assert after[k] == created;
        }
      }
    }
    assert newId !in ReportPrescriptions(prescriptions, reportId);
  }

  /** The stored record carries the supplied fields and its own id. */
  lemma NewPrescriptionSpec(
    id: string, now: Timestamp, reportId: string, doctorId: string, patientId: string, diagnosis: string,
    prescriptionText: string, precautions: string, medications: seq<Medication>)
    ensures var p := NewPrescriptionRecord(id, now, reportId, doctorId, patientId, diagnosis, prescriptionText,
        precautions, medications);
      && p.prescriptionId == id && p.reportId == reportId && p.doctorId == doctorId && p.patientId == patientId
      && p.diagnosis == diagnosis && p.prescriptionText == prescriptionText && p.precautions == precautions
      && p.medications == medications && p.createdAt == now && p.updatedAt == now
  {
  }

  function ForReport(reportId: string): Prescription -> bool
  {
    (p: Prescription) => p.reportId == reportId
  }

  function ForPatient(patientId: string): Prescription -> bool
  {
    (p: Prescription) => p.patientId == patientId
  }

  function ForDoctor(doctorId: string): Prescription -> bool
  {
    (p: Prescription) => p.doctorId == doctorId
  }

  function PrescribedAt(p: Prescription): real
  {
    p.createdAt as real
  }

  /** getPrescriptionByReportId: the first result of the unordered query, or null. */
  function PrescriptionByReportId(prescriptions: map<string, Prescription>, scan: seq<string>, reportId: string)
    : (r: Option<Prescription>)
    requires IsScanOrder(scan, prescriptions)
    ensures r.Some? ==> r.value.reportId == reportId && r.value in prescriptions.Values
  {
    var ids := Where(scan, prescriptions, ForReport(reportId));
    if ids == [] then None else Some(prescriptions[ids[0]])
  }

  /**
   * Null exactly when no prescription names the report; otherwise the
   * first such prescription in scan order (returned as the witness `j`).
   */
  lemma PrescriptionByReportIdSpec(prescriptions: map<string, Prescription>, scan: seq<string>, reportId: string)
    returns (j: nat)
    requires IsScanOrder(scan, prescriptions)
    ensures PrescriptionByReportId(prescriptions, scan, reportId).None? <==>
      ReportPrescriptions(prescriptions, reportId) == {}
    ensures PrescriptionByReportId(prescriptions, scan, reportId).Some? ==>
      && j < |scan|
      && PrescriptionByReportId(prescriptions, scan, reportId).value == prescriptions[scan[j]]
      && prescriptions[scan[j]].reportId == reportId
      && forall i :: 0 <= i < j ==> prescriptions[scan[i]].reportId != reportId
  {
    var keep := ForReport(reportId);
    j := WhereFirst(scan, prescriptions, keep);
    var ids := Where(scan, prescriptions, keep);
    if ids == [] {
      forall k | k in prescriptions ensures prescriptions[k].reportId != reportId {
        var i :| 0 <= i < |scan| && scan[i] == k;
        assert !keep(prescriptions[scan[i]]);
      }
      assert ReportPrescriptions(prescriptions, reportId) == {};
    } else {
      assert keep(prescriptions[ids[0]]);
      assert ids[0] in ReportPrescriptions(prescriptions, reportId);
      forall i | 0 <= i < j ensures prescriptions[scan[i]].reportId != reportId {
        assert !keep(prescriptions[scan[i]]);
      }
    }
  }

  /** Once a report has a prescription, looking it up finds one however many more are written. */
  lemma LookupAfterCreate(
    prescriptions: map<string, Prescription>, scan: seq<string>, newId: string, now: Timestamp, reportId: string,
    doctorId: string, patientId: string, diagnosis: string, prescriptionText: string, precautions: string,
    medications: seq<Medication>)
    requires newId !in prescriptions
    requires IsScanOrder(scan, prescriptions[newId := NewPrescriptionRecord(newId, now, reportId, doctorId,
      patientId, diagnosis, prescriptionText, precautions, medications)])
    ensures PrescriptionByReportId(prescriptions[newId := NewPrescriptionRecord(newId, now, reportId, doctorId,
      patientId, diagnosis, prescriptionText, precautions, medications)], scan, reportId).Some?
  {
    var after := prescriptions[newId := NewPrescriptionRecord(newId, now, reportId, doctorId, patientId,
      diagnosis, prescriptionText, precautions, medications)];
    var _ := PrescriptionByReportIdSpec(after, scan, reportId);
    assert newId in ReportPrescriptions(after, reportId);
  }

  ghost function PatientPrescriptions(prescriptions: map<string, Prescription>, patientId: string): set<string>
  {
    set k | k in prescriptions && prescriptions[k].patientId == patientId
  }

  ghost function DoctorPrescriptions(prescriptions: map<string, Prescription>, doctorId: string): set<string>
  {
    set k | k in prescriptions && prescriptions[k].doctorId == doctorId
  }

  /** getPrescriptionsByPatient. */
  function PrescriptionsByPatient(prescriptions: map<string, Prescription>, scan: seq<string>, patientId: string)
    : (r: seq<Prescription>)
    requires IsScanOrder(scan, prescriptions)
    ensures forall i :: 0 <= i < |r| ==> r[i].patientId == patientId
    ensures forall i, j :: 0 <= i < j < |r| ==> r[i].createdAt >= r[j].createdAt
  {
    Fetch(prescriptions, WhereNewestFirst(scan, prescriptions, ForPatient(patientId), PrescribedAt))
  }

  /** Exactly the patient's prescriptions, each once, newest first. */
  lemma PrescriptionsByPatientSpec(prescriptions: map<string, Prescription>, scan: seq<string>, patientId: string)
    requires IsScanOrder(scan, prescriptions)
    ensures var r := PrescriptionsByPatient(prescriptions, scan, patientId);
      && (forall i :: 0 <= i < |r| ==> r[i].patientId == patientId && r[i] in prescriptions.Values)
      && (forall k :: k in PatientPrescriptions(prescriptions, patientId) ==> prescriptions[k] in r)
      && (forall i, j :: 0 <= i < j < |r| ==> r[i].createdAt >= r[j].createdAt)
      && |r| == |PatientPrescriptions(prescriptions, patientId)|
  {
    NewestFirstSpec(scan, prescriptions, ForPatient(patientId), PrescribedAt,
      PatientPrescriptions(prescriptions, patientId));
  }

  /** getPrescriptionsByDoctor. */
  function PrescriptionsByDoctor(prescriptions: map<string, Prescription>, scan: seq<string>, doctorId: string)
    : (r: seq<Prescription>)
    requires IsScanOrder(scan, prescriptions)
    ensures forall i :: 0 <= i < |r| ==> r[i].doctorId == doctorId
    ensures forall i, j :: 0 <= i < j < |r| ==> r[i].createdAt >= r[j].createdAt
  {
    Fetch(prescriptions, WhereNewestFirst(scan, prescriptions, ForDoctor(doctorId), PrescribedAt))
  }

  /** Exactly the doctor's prescriptions, each once, newest first. */
  lemma PrescriptionsByDoctorSpec(prescriptions: map<string, Prescription>, scan: seq<string>, doctorId: string)
    requires IsScanOrder(scan, prescriptions)
    ensures var r := PrescriptionsByDoctor(prescriptions, scan, doctorId);
      && (forall i :: 0 <= i < |r| ==> r[i].doctorId == doctorId && r[i] in prescriptions.Values)
      && (forall k :: k in DoctorPrescriptions(prescriptions, doctorId) ==> prescriptions[k] in r)
      && (forall i, j :: 0 <= i < j < |r| ==> r[i].createdAt >= r[j].createdAt)
      && |r| == |DoctorPrescriptions(prescriptions, doctorId)|
  {
    NewestFirstSpec(scan, prescriptions, ForDoctor(doctorId), PrescribedAt,
      DoctorPrescriptions(prescriptions, doctorId));
  }
}

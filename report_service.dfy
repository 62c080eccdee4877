/**
 * services/reportService.ts: creating a report (which notifies the
 * referring doctor), completing it, and the report lookups.
 */
module ReportService {
  import opened Wrappers
  import opened Types
  import opened StableSort
  import opened Firestore
  import NotificationService

  /** The message of the notification createReport sends to the doctor. */
  const NewReportMessage := "A new report has been created"

  /**
   * The report createReport leaves behind: the supplied fields, status
   * pending, no radiologist, not sent, and both stamps the server time.
   */
  function NewReportRecord(
    id: string, now: Timestamp, patientId: string, doctorId: string, imageUrl: string, modality: Modality,
    detectedAnomalies: Option<seq<DetectedAnomaly>>, geminiAnalysis: Option<string>, diagnosis: Option<string>,
    findings: Option<string>, recommendations: Option<string>)
    : (r: Report)
    ensures r.id == id && r.status == Pending && r.radiologistId.None? && r.sentToPatient.None?
  {
    Report(id, patientId, None, doctorId, imageUrl, modality, detectedAnomalies, geminiAnalysis, diagnosis,
      findings, recommendations, Pending, None, None, now, now)
  }

  /** A new report is pending, carries its document id, has no radiologist and has not been sent. */
  lemma NewReportSpec(
    id: string, now: Timestamp, patientId: string, doctorId: string, imageUrl: string, modality: Modality,
    detectedAnomalies: Option<seq<DetectedAnomaly>>, geminiAnalysis: Option<string>, diagnosis: Option<string>,
    findings: Option<string>, recommendations: Option<string>)
    ensures var r := NewReportRecord(id, now, patientId, doctorId, imageUrl, modality, detectedAnomalies,
        geminiAnalysis, diagnosis, findings, recommendations);
      && r.id == id && r.status == Pending
      && r.radiologistId.None? && r.sentToPatient.None? && r.sentToDoctor.None?
      && r.patientId == patientId && r.doctorId == doctorId && r.imageUrl == imageUrl && r.modality == modality
      && r.detectedAnomalies == detectedAnomalies && r.geminiAnalysis == geminiAnalysis
      && r.diagnosis == diagnosis && r.findings == findings && r.recommendations == recommendations
      && r.createdAt == now && r.updatedAt == now
  {
  }

  /**
   * createReport. `newId` is the id `addDoc` allocates, `notificationId`
   * the one the notification gets; `now` and `notifiedAt` are the server
   * times of the two writes. The report is added with an empty id, then
   * given its own id, then the doctor is notified.
   */
  method CreateReport(
    db: Db, newId: string, notificationId: string, now: Timestamp, notifiedAt: Timestamp,
    patientId: string, doctorId: string, imageUrl: string, modality: Modality,
    detectedAnomalies: Option<seq<DetectedAnomaly>>, geminiAnalysis: Option<string>, diagnosis: Option<string>,
    findings: Option<string>, recommendations: Option<string>)
    returns (id: string)
    requires newId !in db.reports
    requires notificationId !in db.notifications
    modifies db
    ensures id == newId
    ensures db.reports == old(db.reports)[newId := NewReportRecord(newId, now, patientId, doctorId, imageUrl,
      modality, detectedAnomalies, geminiAnalysis, diagnosis, findings, recommendations)]
    ensures db.notifications == old(db.notifications)[notificationId :=
      NotificationService.NewNotification(notificationId, notifiedAt, doctorId, NewReport, NewReportMessage, Some(newId))]
    ensures db.prescriptions == old(db.prescriptions) && db.patients == old(db.patients)
    ensures old(db.Valid()) ==> db.Valid()
  {
    var added := NewReportRecord("", now, patientId, doctorId, imageUrl, modality, detectedAnomalies,
      geminiAnalysis, diagnosis, findings, recommendations);
    db.reports := db.reports[newId := added];
    db.reports := db.reports[newId := db.reports[newId].(id := newId)];
    var _ := NotificationService.CreateNotification(db, notificationId, notifiedAt, doctorId, NewReport,
      NewReportMessage, Some(newId));
    id := newId;
  }

  /** The sent notification goes to the doctor, is unread and links the new report. */
  lemma CreateReportNotice(notificationId: string, notifiedAt: Timestamp, doctorId: string, newId: string)
    ensures var n := NotificationService.NewNotification(
        notificationId, notifiedAt, doctorId, NewReport, NewReportMessage, Some(newId));
      && n.userId == doctorId && n.kind == NewReport && n.title == "A new report has been created"
      && !n.isRead && (newId != "" ==> n.reportId == Some(newId))
  {
    NotificationService.NewNotificationSpec(notificationId, notifiedAt, doctorId, NewReport, NewReportMessage, Some(newId));
  }

  /** The store after markReportAsCompleted on an existing report: the report is completed, no report added or lost. */
  function Complete(reports: map<string, Report>, reportId: string, now: Timestamp): (r: map<string, Report>)
    requires reportId in reports
    ensures r.Keys == reports.Keys
    ensures r[reportId].status == Completed && r[reportId].updatedAt == now
  {
    reports[reportId := reports[reportId].(status := Completed, updatedAt := now)]
  }

  /**
   * Completing changes only the status and update time of that one report,
   * and does so whatever its prior status.
   */
  lemma CompleteSpec(reports: map<string, Report>, reportId: string, now: Timestamp)
    requires reportId in reports
    ensures Complete(reports, reportId, now).Keys == reports.Keys
    ensures Complete(reports, reportId, now)[reportId].status == Completed
    ensures Complete(reports, reportId, now)[reportId].updatedAt == now
    ensures Complete(reports, reportId, now)[reportId].(status := reports[reportId].status,
      updatedAt := reports[reportId].updatedAt) == reports[reportId]
    ensures forall k :: k in reports && k != reportId ==> Complete(reports, reportId, now)[k] == reports[k]
  {
  }

  /** A second completion succeeds as well; it only moves the update time. */
  lemma CompleteTwice(reports: map<string, Report>, reportId: string, first: Timestamp, second: Timestamp)
    requires reportId in reports
    ensures reportId in Complete(reports, reportId, first)
    ensures Complete(Complete(reports, reportId, first), reportId, second) == Complete(reports, reportId, second)
  {
  }

  /**
   * markReportAsCompleted. `updateDoc` fails on a missing document, and
   * then nothing changes; otherwise the report is completed with no check
   * of its current status.
   */
  method MarkReportAsCompleted(db: Db, reportId: string, now: Timestamp) returns (r: Result<(), StoreError>)
    modifies db
    ensures r.Success? <==> reportId in old(db.reports)
    ensures r.Failure? ==> r.error == NoDocument
    ensures r.Success? ==> db.reports == Complete(old(db.reports), reportId, now)
    ensures r.Failure? ==> db.reports == old(db.reports)
    ensures db.prescriptions == old(db.prescriptions) && db.notifications == old(db.notifications)
    ensures db.patients == old(db.patients)
    ensures old(db.Valid()) ==> db.Valid()
  {
    if reportId in db.reports {
      db.reports := db.reports[reportId := db.reports[reportId].(status := Completed, updatedAt := now)];
      r := Success(());
    } else {
      r := Failure(NoDocument);
    }
  }

  /** getReportById: the stored report with its document id, or null. */
  function GetReportById(reports: map<string, Report>, reportId: string): (r: Option<Report>)
    ensures r.Some? <==> reportId in reports
    ensures r.Some? ==> r.value == reports[reportId].(id := reportId)
  {
    if reportId in reports then Some(reports[reportId].(id := reportId)) else None
  }

  /** Right after createReport, looking the new id up gives the pending report as written. */
  lemma LookupCreated(
    reports: map<string, Report>, id: string, now: Timestamp, patientId: string, doctorId: string,
    imageUrl: string, modality: Modality, detectedAnomalies: Option<seq<DetectedAnomaly>>,
    geminiAnalysis: Option<string>, diagnosis: Option<string>, findings: Option<string>,
    recommendations: Option<string>)
    ensures var created := NewReportRecord(id, now, patientId, doctorId, imageUrl, modality, detectedAnomalies,
        geminiAnalysis, diagnosis, findings, recommendations);
      && GetReportById(reports[id := created], id) == Some(created)
      && GetReportById(reports[id := created], id).value.status == Pending
  {
  }

  /** Right after markReportAsCompleted, looking the report up shows it completed. */
  lemma LookupCompleted(reports: map<string, Report>, reportId: string, now: Timestamp)
    requires reportId in reports
    ensures GetReportById(Complete(reports, reportId, now), reportId).Some?
    ensures GetReportById(Complete(reports, reportId, now), reportId).value.status == Completed
  {
  }

  function ReportCreatedAt(r: Report): real
  {
    r.createdAt as real
  }

  function ForDoctor(doctorId: string): Report -> bool
  {
    (r: Report) => r.doctorId == doctorId
  }

  function ForPatient(patientId: string): Report -> bool
  {
    (r: Report) => r.patientId == patientId
  }

  function ForRadiologist(radiologistId: string): Report -> bool
  {
    (r: Report) => r.radiologistId == Some(radiologistId)
  }

  /** The reports behind a list of ids, each given its document id as `{ ...doc.data(), id: doc.id }` does. */
  function WithIds(reports: map<string, Report>, ids: seq<string>): (r: seq<Report>)
    requires forall i :: 0 <= i < |ids| ==> ids[i] in reports
    ensures |r| == |ids|
    ensures forall i :: 0 <= i < |ids| ==> r[i] == reports[ids[i]].(id := ids[i])
  {
    seq(|ids|, i requires 0 <= i < |ids| => reports[ids[i]].(id := ids[i]))
  }

  /** The listing of a report query that overrides `id` with the document id. */
  function ListWithIds(reports: map<string, Report>, scan: seq<string>, keep: Report -> bool): seq<Report>
    requires IsScanOrder(scan, reports)
  {
    WithIds(reports, WhereNewestFirst(scan, reports, keep, ReportCreatedAt))
  }

  /** Such a listing holds each matching report once, under its own id, newest first. */
  lemma ListWithIdsSpec(reports: map<string, Report>, scan: seq<string>, keep: Report -> bool, matches: set<string>)
    requires IsScanOrder(scan, reports)
    requires forall k :: k in matches <==> k in reports && keep(reports[k])
    ensures var r := ListWithIds(reports, scan, keep);
      && (forall i :: 0 <= i < |r| ==> r[i].id in matches && r[i] == reports[r[i].id].(id := r[i].id))
      && (forall k :: k in matches ==> reports[k].(id := k) in r)
      && (forall i, j :: 0 <= i < j < |r| ==> r[i].createdAt >= r[j].createdAt)
      && |r| == |matches|
  {
    var ids := WhereNewestFirst(scan, reports, keep, ReportCreatedAt);
    var r := WithIds(reports, ids);
    MatchCount(ids, reports, keep, matches);
    forall k | k in matches ensures reports[k].(id := k) in r {
      var i :| 0 <= i < |ids| && ids[i] == k;
      assert r[i] == reports[k].(id := k);
    }
    forall i, j | 0 <= i < j < |r| ensures r[i].createdAt >= r[j].createdAt {
      assert ReportCreatedAt(reports[ids[i]]) >= ReportCreatedAt(reports[ids[j]]);
    }
  }

  ghost function DoctorIds(reports: map<string, Report>, doctorId: string): set<string>
  {
    set k | k in reports && reports[k].doctorId == doctorId
  }

  ghost function PatientIds(reports: map<string, Report>, patientId: string): set<string>
  {
    set k | k in reports && reports[k].patientId == patientId
  }

  ghost function RadiologistIds(reports: map<string, Report>, radiologistId: string): set<string>
  {
    set k | k in reports && reports[k].radiologistId == Some(radiologistId)
  }

  /** getReportsByDoctor. */
  function ReportsByDoctor(reports: map<string, Report>, scan: seq<string>, doctorId: string): (r: seq<Report>)
    requires IsScanOrder(scan, reports)
    ensures forall i :: 0 <= i < |r| ==> r[i].doctorId == doctorId
    ensures forall i, j :: 0 <= i < j < |r| ==> r[i].createdAt >= r[j].createdAt
  {
    ListWithIds(reports, scan, ForDoctor(doctorId))
  }

  /** Exactly the doctor's reports, each once under its own id, newest first. */
  lemma ReportsByDoctorSpec(reports: map<string, Report>, scan: seq<string>, doctorId: string)
    requires IsScanOrder(scan, reports)
    ensures var r := ReportsByDoctor(reports, scan, doctorId);
      && (forall i :: 0 <= i < |r| ==> r[i].doctorId == doctorId && r[i] == reports[r[i].id].(id := r[i].id))
      && (forall k :: k in DoctorIds(reports, doctorId) ==> reports[k].(id := k) in r)
      && (forall i, j :: 0 <= i < j < |r| ==> r[i].createdAt >= r[j].createdAt)
      && |r| == |DoctorIds(reports, doctorId)|
  {
    ListWithIdsSpec(reports, scan, ForDoctor(doctorId), DoctorIds(reports, doctorId));
  }

  /** getReportsByPatient. */
  function ReportsByPatient(reports: map<string, Report>, scan: seq<string>, patientId: string): (r: seq<Report>)
    requires IsScanOrder(scan, reports)
    ensures forall i :: 0 <= i < |r| ==> r[i].patientId == patientId
    ensures forall i, j :: 0 <= i < j < |r| ==> r[i].createdAt >= r[j].createdAt
  {
    ListWithIds(reports, scan, ForPatient(patientId))
  }

  /** Exactly the patient's reports, each once under its own id, newest first. */
  lemma ReportsByPatientSpec(reports: map<string, Report>, scan: seq<string>, patientId: string)
    requires IsScanOrder(scan, reports)
    ensures var r := ReportsByPatient(reports, scan, patientId);
      && (forall i :: 0 <= i < |r| ==> r[i].patientId == patientId && r[i] == reports[r[i].id].(id := r[i].id))
      && (forall k :: k in PatientIds(reports, patientId) ==> reports[k].(id := k) in r)
      && (forall i, j :: 0 <= i < j < |r| ==> r[i].createdAt >= r[j].createdAt)
      && |r| == |PatientIds(reports, patientId)|
  {
    ListWithIdsSpec(reports, scan, ForPatient(patientId), PatientIds(reports, patientId));
  }

  /** getReportsByRadiologist: matches on `radiologistId` and keeps the stored `id` field. */
  function ReportsByRadiologist(reports: map<string, Report>, scan: seq<string>, radiologistId: string)
    : (r: seq<Report>)
    requires IsScanOrder(scan, reports)
    ensures forall i :: 0 <= i < |r| ==> r[i].radiologistId == Some(radiologistId)
    ensures forall i, j :: 0 <= i < j < |r| ==> r[i].createdAt >= r[j].createdAt
  {
    Fetch(reports, WhereNewestFirst(scan, reports, ForRadiologist(radiologistId), ReportCreatedAt))
  }

  /** Exactly the reports naming the radiologist, each once, newest first. */
  lemma ReportsByRadiologistSpec(reports: map<string, Report>, scan: seq<string>, radiologistId: string)
    requires IsScanOrder(scan, reports)
    ensures var r := ReportsByRadiologist(reports, scan, radiologistId);
      && (forall i :: 0 <= i < |r| ==> r[i].radiologistId == Some(radiologistId) && r[i] in reports.Values)
      && (forall k :: k in RadiologistIds(reports, radiologistId) ==> reports[k] in r)
      && (forall i, j :: 0 <= i < j < |r| ==> r[i].createdAt >= r[j].createdAt)
      && |r| == |RadiologistIds(reports, radiologistId)|
  {
    NewestFirstSpec(scan, reports, ForRadiologist(radiologistId), ReportCreatedAt,
      RadiologistIds(reports, radiologistId));
  }

  /**
   * getReportsByRadiologist skips the `id: doc.id` override of the other
   * listings. In a store whose reports carry their own id, as createReport
   * leaves them, that makes no difference.
   */
  lemma ValidRadiologistListing(db: Db, scan: seq<string>, radiologistId: string)
    requires db.Valid() && IsScanOrder(scan, db.reports)
    ensures ReportsByRadiologist(db.reports, scan, radiologistId)
      == ListWithIds(db.reports, scan, ForRadiologist(radiologistId))
  {
    var ids := WhereNewestFirst(scan, db.reports, ForRadiologist(radiologistId), ReportCreatedAt);
    var fetched := Fetch(db.reports, ids);
    var listed := WithIds(db.reports, ids);
    forall i | 0 <= i < |ids| ensures fetched[i] == listed[i] {
      assert db.reports[ids[i]].id == ids[i];
    }
  }

  /** createReport never writes `radiologistId`, so no report it creates is listed for any radiologist. */
  lemma CreatedNeverListedForRadiologist(
    reports: map<string, Report>, scan: seq<string>, radiologistId: string,
    id: string, now: Timestamp, patientId: string, doctorId: string, imageUrl: string, modality: Modality,
    detectedAnomalies: Option<seq<DetectedAnomaly>>, geminiAnalysis: Option<string>, diagnosis: Option<string>,
    findings: Option<string>, recommendations: Option<string>)
    requires IsScanOrder(scan, reports)
    ensures NewReportRecord(id, now, patientId, doctorId, imageUrl, modality, detectedAnomalies, geminiAnalysis,
      diagnosis, findings, recommendations) !in ReportsByRadiologist(reports, scan, radiologistId)
  {
    ReportsByRadiologistSpec(reports, scan, radiologistId);
  }

  /** A store whose reports all lack a radiologist, as createReport writes them, lists none for any radiologist. */
  lemma NoRadiologistNoListing(reports: map<string, Report>, scan: seq<string>, radiologistId: string)
    requires IsScanOrder(scan, reports)
    requires forall k :: k in reports ==> reports[k].radiologistId.None?
    ensures ReportsByRadiologist(reports, scan, radiologistId) == []
  {
    ReportsByRadiologistSpec(reports, scan, radiologistId);
    assert RadiologistIds(reports, radiologistId) == {};
  }
}

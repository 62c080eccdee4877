/**
 * The records of the document store and the value types of the analysis
 * pipeline (types/index.ts). Field names follow the source, except that
 * Dafny reserves `type`: it is `kind` on findings and notifications and
 * `modality` on reports.
 */
module Types {
  import opened Wrappers

  /** An 8-bit unsigned value, the element type of a `Uint8Array`. */
  newtype byte = x: int | 0 <= x < 256

  /** Timestamps (milliseconds) as produced by `serverTimestamp()` or `Date.now()`. */
  type Timestamp = int

  /** One structured finding of the analysis pipeline. */
  datatype DetectedAnomaly = DetectedAnomaly(
    kind: string,
    location: string,
    confidence: real,
    description: string)

  datatype Modality = Xray | Ct | Mri | Ultrasound

  datatype ReportStatus = Pending | Completed

  datatype Report = Report(
    id: string,
    patientId: string,
    radiologistId: Option<string>,
    doctorId: string,
    imageUrl: string,
    modality: Modality,
    detectedAnomalies: Option<seq<DetectedAnomaly>>,
    geminiAnalysis: Option<string>,
    diagnosis: Option<string>,
    findings: Option<string>,
    recommendations: Option<string>,
    status: ReportStatus,
    sentToDoctor: Option<bool>,
    sentToPatient: Option<bool>,
    createdAt: Timestamp,
    updatedAt: Timestamp)

  datatype Medication = Medication(name: string, dosage: string, frequency: string, duration: string)

  /** A prescription as the service writes it: the document id is kept in `prescriptionId`. */
  datatype Prescription = Prescription(
    prescriptionId: string,
    reportId: string,
    doctorId: string,
    patientId: string,
    diagnosis: string,
    prescriptionText: string,
    precautions: string,
    medications: seq<Medication>,
    createdAt: Timestamp,
    updatedAt: Timestamp)

  datatype NotificationKind =
    | ReportNotice | PrescriptionNotice | Appointment | System
    | NewReport | ReportReady | NewPatientRegistered | PrescriptionReady

  /** A notification as the service writes it: the document id is stored twice, as `id` and `notificationId`. */
  datatype Notification = Notification(
    id: string,
    notificationId: string,
    userId: string,
    kind: NotificationKind,
    title: string,
    body: string,
    reportId: Option<string>,
    isRead: bool,
    createdAt: Timestamp)

  datatype Gender = Male | Female | Other

  /** What a caller of `registerPatient` supplies: a patient without `patientId` and `createdAt`. */
  datatype PatientDetails = PatientDetails(
    registeredBy: string,
    fullName: string,
    age: int,
    gender: Gender,
    contactNumber: string,
    email: string,
    medicalHistory: Option<string>,
    bloodGroup: Option<string>,
    allergies: Option<string>)

  /** A stored patient; `createdAt` may be missing on records written outside this service. */
  datatype Patient = Patient(patientId: string, details: PatientDetails, createdAt: Option<Timestamp>)
}

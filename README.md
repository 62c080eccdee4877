# MedAlze core in Dafny

MedAlze is a medical-imaging app. A radiologist uploads a chest X-ray. A
classifier gives one probability for each of 15 condition classes, and
the app turns these into structured findings. The app then creates a
report for the referring doctor and notifies them. The doctor completes
the report by writing a prescription. This project models the client-side
logic of that workflow:

- **aiService** (`ai_service.dfy`, module `AiService`):
  - the lazily loaded classifier handle, a class `ModelSlot` with an
    `Option` field;
  - the RGBA to RGB copy loop of the decoded image;
  - the synthesis of findings from the probability vector. It keeps the
    classes with probability of at least 0.5 and falls back to one
    "Normal" finding. Otherwise it sorts the classes stably by descending
    probability, and expands each class other than "Normal" into one
    finding per location.
  - The lookup tables `ANOMALY_CLASSES`, `LOCATIONS_MAP` and
    `DESCRIPTIONS_MAP` are enum-keyed functions, gathered in `Catalog`.
    The synthesis is stated for any `Tables` value whose classes all have
    two or three locations.
- **The document store** (`firestore.dfy`, module `Firestore`):
  - a class `Db` with one map per collection (`reports`, `prescriptions`,
    `notifications`, `patients`);
  - `where` queries as a filter in a scan order, meaning the order in
    which the store lists a collection. A scan lists every document id
    exactly once. One scan order serves every read of a collection, which
    holds for Firestore's default order by document id. So the `where`
    query and the full read in getPatientsByRadiologist's fallback list
    the collection in the same order.
  - `orderBy(createdAt, 'desc')` as a stable descending sort on top of
    that filter.
  - New document ids and `serverTimestamp()` values are parameters.
- **The stable sort** (`stable_sort.dfy`, module `StableSort`): a
  specification `SortDesc`, an insertion sort from the back. Its
  permutation, ordering and stability are proved. `SortInPlace` is an
  in-place array method proved equal to it. It serves
  `Array.prototype.sort` with a `(a, b) => key(b) - key(a)` comparator,
  and `orderBy(..., 'desc')`.
- **reportService, prescriptionService, notificationService and
  patientService**: each store mutation is a module-level method that
  takes the store `db: Db` and `modifies db`. Its contract names exactly
  the records that change and says that nothing else does.
  Each query is a function with a lemma that states what it lists.
- **storageService** (`storage_service.dfy`): the object paths, the byte
  conversion loop and the progress formula. The paths get round-trip and
  injectivity lemmas, the formula gets bounds and monotonicity.

Findings' `type` is `kind`, and a report's `type` is `modality`. Dafny
reserves the word `type`.

Points where the code behaves in a way one might not expect, which the
model follows:

- **The Normal fallback's confidence** is the probability of "Normal" when
  "Normal" cleared the threshold, and 0.95 otherwise. It is not a maximum
  of the two (services/aiService.ts:276).
- **markReportAsCompleted** does not check the current status. A second
  completion succeeds, and only moves `updatedAt` (services/reportService.ts:145-148).
- **createPrescription** does not check for an existing prescription of
  the same report. Every call adds one more (services/prescriptionService.ts:27-37).
- **createReport** takes no radiologist and writes no `radiologistId`. So
  `getReportsByRadiologist` lists none of the reports it creates
  (`ReportService.CreatedNeverListedForRadiologist`).
- **Prescriptions** are declared with an `id` field in types/index.ts, but
  the service writes `prescriptionId` instead. The model's `Prescription`
  carries `prescriptionId`.
- **Notifications** are written with both `id` and `notificationId`.
  `notificationId` is not in the declared type.

## Model

| member | source | states |
|---|---|---|
| AiService.ClassIndex | services/aiService.ts:121-137 | every class has a position in ANOMALY_CLASSES, and the entry at that position is the class itself |
| AiService.Locations | services/aiService.ts:141-215 | LOCATIONS_MAP gives every class two or three locations |
| AiService.Description | services/aiService.ts:217-233 | the DESCRIPTIONS_MAP table itself, one text per class, with no contract of its own; its texts reach the findings through ClassFindingsSpec and PneumoniaFindings |
| AiService.CatalogWellFormed | services/aiService.ts:121-215 | the tables of aiService.ts give two or three locations per class, and no two classes share a label |
| AiService.ClassName | services/aiService.ts:121-137 | each class has its own ANOMALY_CLASSES label, and reading the label back gives the class, so no two classes share one |
| AiService.Detected | services/aiService.ts:258-268 | after the first n probabilities the loop has pushed at most n conditions, each with probability at least 0.5 |
| AiService.DetectedSpec | services/aiService.ts:258-268 | selection keeps a class exactly when its probability is at least 0.5 (inclusive), tagged with its ANOMALY_CLASSES entry and probability, in ANOMALY_CLASSES order |
| AiService.Finding | services/aiService.ts:291-301 | the first finding of a class has the class probability as confidence and DESCRIPTIONS_MAP's text; for a positive probability every later one has a lower confidence |
| AiService.ClassFindings | services/aiService.ts:287-302 | as many findings as LOCATIONS_MAP gives the class, the k-th at the k-th location and naming the class |
| AiService.ClassFindingsSpec | services/aiService.ts:287-302 | a class expands into one finding per LOCATIONS_MAP entry, in table order, all naming the class. The k-th confidence is p·(1 − 0.1k), the first equals p, the first description is DESCRIPTIONS_MAP's and later ones are the "Additional … findings in this region." text |
| AiService.ConfidenceDecreasing | services/aiService.ts:297 | for a positive probability, the confidences within a class strictly decrease |
| AiService.ConfidenceBounded | services/aiService.ts:297 | for a probability in [0, 1], every confidence stays in [0, 1] |
| AiService.PushClassFindings | services/aiService.ts:291-302 | the `forEach` over a class's locations appends exactly that class's findings to the list |
| AiService.Synthesize | services/aiService.ts:257-305 | the synthesis never returns an empty list: either the single Normal finding or at least one finding of a qualifying class |
| AiService.SynthesizeFindings | services/aiService.ts:257-305 | the threshold loop, fallback test, in-place sort and nested expansion loops compute exactly `Synthesize` |
| AiService.NormalFallback | services/aiService.ts:271-279 | when no class other than "Normal" qualifies, the result is one finding: type "Normal", location "Clear lung fields", confidence the Normal probability if it qualified else 0.95, the Normal description |
| AiService.SingleClass | services/aiService.ts:261-302 | when exactly one pathological class qualifies, whether or not "Normal" does too, the result is exactly that class's findings |
| AiService.AbnormalSorted | services/aiService.ts:271-282 | when a pathological class qualifies there is no fallback; the result expands the sorted qualifying conditions, which include that class |
| AiService.AbnormalFindings | services/aiService.ts:286-303 | when a pathological class qualifies, the result is non-empty, holds no Normal finding, and each finding is one its qualifying class produces |
| AiService.FindingsRankedByProbability | services/aiService.ts:282-303 | any finding before another comes from a class of higher probability, or of equal probability and no later in ANOMALY_CLASSES (stable sort) |
| AiService.QualifyingClassContributes | services/aiService.ts:287-302 | each qualifying pathological class contributes all its findings as one contiguous block, in table order |
| AiService.FindingCount | services/aiService.ts:287-302 | the number of findings is the sum of the location counts of the qualifying pathological classes |
| AiService.ToLower | services/aiService.ts:300 | the lower-cased text has the same length; each capital becomes its own lowercase letter, and every other character is unchanged |
| AiService.LowerPneumonia | services/aiService.ts:300 | `toLowerCase` gives "pneumonia" for the label "Pneumonia" |
| AiService.PneumoniaFindings | services/aiService.ts:200-230 | Pneumonia at 0.8 yields three findings at its three locations, confidences 0.8, 0.72 and 0.64, the canonical description first and then the secondary text |
| AiService.PneumoniaExample | services/aiService.ts:257-303 | with Pneumonia at 0.8, Normal at 0.1 and every other class at 0, the synthesis gives exactly those three Pneumonia findings |
| AiService.StripAlpha | services/aiService.ts:103-111 | with 4·w·h input bytes, the buffer has 3·w·h bytes and its k-th byte is channel k mod 3 of pixel k / 3, so alpha is dropped |
| AiService.ModelSlot.constructor | services/aiService.ts:17 | the handle starts null, with no load attempted |
| AiService.ModelSlot.InitializeModel | services/aiService.ts:34-58 | loads only while the handle is null. A loaded handle is returned again without reloading. A failed load leaves the handle null and reports "Failed to load AI model", so the next call retries |
| AiService.ModelSlot.DetectAnomalies | services/aiService.ts:235-310 | after initialisation, with the handle set the result is the synthesis of the classifier's probabilities; with it null the result is the single error "Failed to analyze X-ray image. Please try again."; a load is attempted exactly when the handle was null |
| StableSort.SortDescSpec | services/patientService.ts:54-58 | the sort is a permutation (same multiset, same members) ordered by non-increasing key |
| StableSort.SortDescStable | services/aiService.ts:282 | elements with equal keys keep their input order |
| StableSort.SortInPlace | services/patientService.ts:54-58 | sorting an array in place leaves exactly SortDesc of its old contents |
| Firestore.Db.constructor | services/reportService.ts:13 | an empty store: every collection is empty, and every document carries its own id |
| Firestore.Where | services/prescriptionService.ts:55 | a `where` query lists matching documents only, lists every match, and lists none twice |
| Firestore.WhereNewestFirst | services/reportService.ts:84-88 | a `where` plus `orderBy(createdAt, 'desc')` query lists exactly the matching documents, each once, by non-increasing time |
| Firestore.Fetch | services/prescriptionService.ts:81-85 | the pointwise definition of `docs.map(doc => doc.data())`: the i-th result is the document of the i-th id; what a listing holds is stated by Firestore.NewestFirstSpec |
| Firestore.WhereFirst | services/prescriptionService.ts:58-59 | the query result is empty iff no document matches; otherwise its first id is the first match in scan order |
| Firestore.NewestFirstSpec | services/notificationService.ts:49-58 | the documents of such a query match, every match is present, they are newest first, and there are as many as matches |
| NotificationService.CreateNotification | services/notificationService.ts:15-45 | inserts exactly one notification under the new id and changes nothing else |
| NotificationService.NewNotification | services/notificationService.ts:22-38 | the stored notification carries the new id as both `id` and `notificationId`, and is unread |
| NotificationService.ReportLink | services/notificationService.ts:27 | the report id if it is truthy, else null: null exactly when the report id is missing or empty, otherwise the id itself |
| NotificationService.NewNotificationSpec | services/notificationService.ts:22-38 | the notification is unread, has the message as title and body, carries the new id as `id` and `notificationId`, and stores a missing or empty report id as null |
| NotificationService.NotificationsByUser | services/notificationService.ts:47-58 | every listed notification is the user's, and they are newest first |
| NotificationService.NotificationsByUserSpec | services/notificationService.ts:47-58 | exactly the user's notifications, each once, newest first |
| NotificationService.MarkNotificationsAsRead | services/notificationService.ts:65-79 | marks every existing listed notification read and nothing else; fails iff a listed id does not exist |
| NotificationService.MarkRead | services/notificationService.ts:67-74 | no notification is added or lost, and every listed one that exists is read afterwards |
| NotificationService.MarkReadSpec | services/notificationService.ts:67-74 | isRead becomes true on exactly the listed notifications; every other field and notification is unchanged |
| NotificationService.MarkReadIdempotent | services/notificationService.ts:67-74 | marking the same ids read twice equals marking them once |
| NotificationService.MarkReadStep | services/notificationService.ts:68-72 | one more update marks just that notification, if it exists |
| NotificationService.UnreadCount | services/notificationService.ts:81-94 | 0 when the query fails; otherwise, for a scan that lists the collection, the number of the user's unread notifications |
| NotificationService.UnreadCountSpec | services/notificationService.ts:81-94 | the count is the number of the user's unread notifications, and 0 when the query fails |
| NotificationService.UnreadAfterMark | services/notificationService.ts:65-94 | after marking read, the user's unread set loses exactly the listed ids |
| NotificationService.MarkReadKeepsScanOrder | services/notificationService.ts:67-74 | marking read keeps every document of the collection |
| NotificationService.MarkAllReadClearsCount | services/notificationService.ts:65-94 | marking all of a user's unread notifications read brings their count to 0 |
| ReportService.NewReportRecord | services/reportService.ts:48-62 | the report record carries its document id, is pending, names no radiologist and has not been sent |
| ReportService.NewReportSpec | services/reportService.ts:48-62 | a new report is pending, stores the supplied fields unchanged, has no radiologist and no sent flags, and both stamps are the server time |
| ReportService.CreateReport | services/reportService.ts:36-80 | inserts exactly one report under the new id with `id` equal to it, and one notification to the doctor; no other record changes |
| ReportService.CreateReportNotice | services/reportService.ts:68-73 | the notification goes to the doctor, is of type new_report, reads "A new report has been created", is unread, and links the new report |
| ReportService.Complete | services/reportService.ts:145-148 | no report is added or lost, and the report is completed with the update time of the call |
| ReportService.CompleteSpec | services/reportService.ts:145-148 | completion sets status completed and the update time on that report only, whatever its prior status; every other field and report is unchanged |
| ReportService.CompleteTwice | services/reportService.ts:142-148 | a second completion also applies, and the result is the same as one completion at the later time |
| ReportService.MarkReportAsCompleted | services/reportService.ts:142-153 | succeeds iff the report exists, and then completes it; otherwise it fails and nothing changes |
| ReportService.GetReportById | services/reportService.ts:122-140 | a report iff the id exists, and then exactly the stored record with its `id` field set to the document id; null otherwise |
| ReportService.LookupCreated | services/reportService.ts:122-135 | after createReport, looking up the new id gives the pending report as written |
| ReportService.LookupCompleted | services/reportService.ts:122-148 | after completion, the lookup shows the report completed |
| ReportService.WithIds | services/reportService.ts:90-95 | the pointwise definition of `{ id: doc.id, ...doc.data() }`: the i-th result is the i-th id's report with `id` set to that id; what a listing holds is stated by ReportService.ListWithIdsSpec |
| ReportService.ListWithIdsSpec | services/reportService.ts:84-95 | such a listing holds each matching report once, under its own id, newest first |
| ReportService.ReportsByDoctor | services/reportService.ts:82-100 | every listed report is the doctor's, and they are newest first |
| ReportService.ReportsByDoctorSpec | services/reportService.ts:82-100 | exactly the doctor's reports, each once under its own id, newest first |
| ReportService.ReportsByPatient | services/reportService.ts:102-120 | every listed report is the patient's, and they are newest first |
| ReportService.ReportsByPatientSpec | services/reportService.ts:102-120 | exactly the patient's reports, each once under its own id, newest first |
| ReportService.ReportsByRadiologist | services/reportService.ts:17-34 | every listed report names the radiologist, and they are newest first |
| ReportService.ReportsByRadiologistSpec | services/reportService.ts:17-34 | exactly the reports naming the radiologist, each once, newest first, with the stored `id` field |
| ReportService.ValidRadiologistListing | services/reportService.ts:17-29 | in a store where every report carries its own id, the radiologist listing, which returns the stored `id` field, equals the document-id listing of the other report queries |
| ReportService.CreatedNeverListedForRadiologist | services/reportService.ts:17-62 | no report createReport writes is listed for any radiologist |
| ReportService.NoRadiologistNoListing | services/reportService.ts:19-23 | a store of reports without radiologistId gives an empty radiologist listing |
| PrescriptionService.CreatePrescription | services/prescriptionService.ts:17-51 | inserts the prescription under the new id, then completes the report if it exists, then sends. It fails on a missing report or a failed send and returns the new id otherwise. On success the report is completed |
| PrescriptionService.NewPrescriptionRecord | services/prescriptionService.ts:27-41 | the stored prescription carries its own id as `prescriptionId`, the report id and the medications it was given |
| PrescriptionService.NewPrescriptionSpec | services/prescriptionService.ts:27-41 | the stored prescription carries the supplied fields unchanged and its own id as `prescriptionId` |
| PrescriptionService.EachCallAddsOne | services/prescriptionService.ts:27-37 | every call adds one more prescription for the report, however many exist already |
| PrescriptionService.PrescriptionByReportId | services/prescriptionService.ts:53-71 | a prescription found is one of the stored prescriptions and names the report |
| PrescriptionService.PrescriptionByReportIdSpec | services/prescriptionService.ts:53-71 | null iff no prescription names the report; otherwise the first that does, in query order |
| PrescriptionService.LookupAfterCreate | services/prescriptionService.ts:55-66 | once a prescription for a report is written, the lookup finds one |
| PrescriptionService.PrescriptionsByPatient | services/prescriptionService.ts:73-90 | every listed prescription is the patient's, and they are newest first |
| PrescriptionService.PrescriptionsByPatientSpec | services/prescriptionService.ts:73-90 | exactly the patient's prescriptions, each once, newest first |
| PrescriptionService.PrescriptionsByDoctor | services/prescriptionService.ts:92-109 | every listed prescription is the doctor's, and they are newest first |
| PrescriptionService.PrescriptionsByDoctorSpec | services/prescriptionService.ts:92-109 | exactly the doctor's prescriptions, each once, newest first |
| PatientService.RegisterPatient | services/patientService.ts:16-32 | inserts exactly one patient with the supplied details and `createdAt`, whose `patientId` is the new id; nothing else changes |
| PatientService.GetPatientById | services/patientService.ts:85-101 | a patient iff the id exists, and then exactly the stored record; null otherwise |
| PatientService.LookupRegistered | services/patientService.ts:85-96 | after registerPatient, the lookup gives the new record |
| PatientService.Filter | services/patientService.ts:73 | `filter` keeps exactly the records that satisfy the predicate |
| PatientService.FilterIsWhere | services/patientService.ts:61-73 | filtering the whole collection lists the same records, in the same order, as the `where` query |
| PatientService.CreatedOrZero | services/patientService.ts:54-58 | the comparator's key: the creation time when the patient has one, 0 when it is missing |
| PatientService.RadiologistPatients | services/patientService.ts:38-58 | every listed patient was registered by the radiologist, and they come by non-increasing createdAt with a missing one counted as 0 |
| PatientService.RadiologistPatientsSpec | services/patientService.ts:38-58 | a permutation of the radiologist's patients: only them, everyone, each once, by non-increasing createdAt with a missing one counted as 0 |
| PatientService.SortByCreatedDesc | services/patientService.ts:54-58 | the in-place sort by createdAt, newest first, gives SortDesc of the list |
| PatientService.GetPatientsByRadiologist | services/patientService.ts:34-83 | fails iff both the query and the fallback fail, and then with the query-failure error `QueryFailed`; either successful path returns the same sorted list, RadiologistPatients |
| StorageService.DecimalString | services/storageService.ts:20-21 | a timestamp renders as decimal digits without a leading zero |
| StorageService.DecimalRoundTrip | services/storageService.ts:20-21 | the rendering reads back as the number |
| StorageService.XrayPath | services/storageService.ts:20-22 | the X-ray path starts with `xrays/` and ends with `.jpg` |
| StorageService.XrayPathSpec | services/storageService.ts:20-22 | the X-ray path lies in `xrays/<patientId>/` and ends in `.jpg`; two uploads for one patient at different times get different paths |
| StorageService.ProfilePath | services/storageService.ts:79-80 | the profile path depends only on the user, and reading its owner back gives that user, so the user id is recovered from the path |
| StorageService.ProfilePathInjective | services/storageService.ts:79-80 | different users get different profile paths, and one user always gets the same path |
| StorageService.ToUint8 | services/storageService.ts:39 | the conversion of one number by `Uint8Array`: the byte is the number modulo 256, and a number below 256 is kept; the array as a whole is stated by StorageService.ToByteArray |
| StorageService.ToByteArray | services/storageService.ts:34-39 | the byte array has the length of the decoded text, and byte i is character code i modulo 256 |
| StorageService.ByteArrayRoundTrip | services/storageService.ts:34-39 | for text of codes below 256, as `atob` yields, the bytes are exactly the character codes |
| StorageService.UploadProgress | services/storageService.ts:49 | undefined iff the total is 0; otherwise in [0, 100] when transferred ≤ total, 100 iff all is sent, 0 iff none is |
| StorageService.ProgressMonotone | services/storageService.ts:49 | more bytes transferred never lowers the progress |
| StorageService.GetImageUrl | services/storageService.ts:110-112 | a pass-through: the function adds nothing to the stored download URL, which is handed back unchanged |

## Left out

- Floating point: probabilities, confidences and the progress value are
  `real`. IEEE rounding of `p * (1 - index * 0.1)` and of the division is
  not modelled.
- `preprocessImage`, inference and its softmax, JPEG `decode`, web `Image`
  loading and `analyzeMedicalImage` (a Gemini network call) are foreign
  libraries or network calls. The classifier's output enters as a
  15-entry `seq<real>` parameter.
- AiService.ModelSlot.DetectAnomalies: takes any 15 reals. It does not use
  the fact that softmax outputs are non-negative and sum to 1. Getting the
  image to a tensor is not modelled, so none of its failures are either.
- AiService.ModelSlot.InitializeModel: backend setup, the model URL lookup
  and `loadGraphModel` are one abstract loader outcome (`loaded`). Their
  distinct error messages are not modelled.
- AiService.ModelSlot.InitializeModel: interleaved calls are not
  modelled. The null test and the assignment of the handle are separated
  by awaits (services/aiService.ts:35-50), so two overlapping calls can
  both see null and both load the model. The method is one atomic call.
- AiService.ToLower: folds ASCII letters only, and the class labels are
  ASCII. Unicode case mapping is not modelled.
- Firestore mechanics: `addDoc` id allocation and `serverTimestamp()`
  become parameters. `.toDate()` conversion is not modelled: stamps stay
  numbers. Network, permission and quota errors are not modelled either.
  The store errors modelled are `NoDocument`, `updateDoc` on a missing
  document, and `QueryFailed`, a failed query. Only getPatientsByRadiologist
  and getUnreadNotificationCount see query failures, as they handle them
  themselves.
- The order in which the store lists a collection for an unordered query
  is a parameter (`scan`).
- NotificationService.MarkNotificationsAsRead: `Promise.all` runs the
  updates concurrently; the model runs them in list order. Because the
  updates touch different records or repeat the same one, the final store
  is the same.
- PrescriptionService.CreatePrescription: `sendReportToPatient` is not
  defined in any available file. Its outcome is the parameter `sendFails`.
  Its effect on the store (presumably setting `sentToPatient` and
  notifying the patient) is not modelled, because none of its code is
  available. The contract describes the store as markReportAsCompleted
  leaves it.
- ReportService.CreateReport: always succeeds. The optional fields
  (`diagnosis`, `findings`, `recommendations`, the analysis) are `Option`s,
  and a missing one is stored as absent. The source writes them with
  `addDoc` as given (services/reportService.ts:48-62), and the upload
  screen passes `undefined` for `diagnosis` and leaves `recommendations`
  out (app/(radiologist)/upload-xray.tsx:109-118). Firestore's web SDK
  rejects an `undefined` field value unless the store was initialised
  with `ignoreUndefinedProperties`. That setting would be in
  config/firebase, which is not part of this model, so the possible
  rejection of such a call is not modelled.
- Rethrown errors carry their cause in the source. The model keeps one
  error value per failure kind.
- The uploads in `uploadXRayImage` and `uploadProfileImage`: storage
  references, `uploadBytesResumable`, progress and completion callbacks,
  `getDownloadURL`, `fetch` and `readAsStringAsync` are I/O. `Date.now()`
  becomes a natural-number parameter.
- StorageService.ToByteArray: JavaScript's `charCodeAt` yields UTF-16 code
  units. The model uses Dafny `char` codes, which agree for the codes
  below 256 that `atob` produces.
- `getDoctor`, services/doctorService.ts, services/authService.ts,
  `getAllPatients`, the hooks, the UI components and screens, and the
  configuration are not part of this model. They hold no client-side logic
  beyond store queries, identity-provider calls and rendering.

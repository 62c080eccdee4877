/**
 * services/patientService.ts: registering a patient, a radiologist's
 * patients newest first, and the lookup by id.
 */
module PatientService {
  import opened Wrappers
  import opened Types
  import opened StableSort
  import opened Firestore

  /**
   * registerPatient. `newId` is the id `addDoc` allocates and `now` the
   * server time. The details are stored with `createdAt`, then the record
   * is given its `patientId`.
   */
  method RegisterPatient(db: Db, newId: string, now: Timestamp, details: PatientDetails) returns (id: string)
    requires newId !in db.patients
    modifies db
    ensures id == newId
    ensures db.patients == old(db.patients)[newId := Patient(newId, details, Some(now))]
    ensures db.reports == old(db.reports) && db.prescriptions == old(db.prescriptions)
    ensures db.notifications == old(db.notifications)
    ensures old(db.Valid()) ==> db.Valid()
  {
    db.patients := db.patients[newId := Patient("", details, Some(now))];
    db.patients := db.patients[newId := db.patients[newId].(patientId := newId)];
    id := newId;
  }

  /** getPatientById: the stored record, or null. */
  function GetPatientById(patients: map<string, Patient>, patientId: string): (r: Option<Patient>)
    ensures r.Some? <==> patientId in patients
    ensures r.Some? ==> r.value == patients[patientId]
  {
    if patientId in patients then Some(patients[patientId]) else None
  }

  /** Right after registerPatient, the lookup gives the details under the new id, stamped with the time. */
  lemma LookupRegistered(patients: map<string, Patient>, newId: string, now: Timestamp, details: PatientDetails)
    ensures GetPatientById(patients[newId := Patient(newId, details, Some(now))], newId)
      == Some(Patient(newId, details, Some(now)))
  {
  }

  /** The sort key of both sorts: the creation time, 0 when it is missing. */
  function CreatedOrZero(p: Patient): (k: real)
    ensures p.createdAt.Some? ==> k == p.createdAt.value as real
    ensures p.createdAt.None? ==> k == 0.0
  {
    if p.createdAt.Some? then p.createdAt.value as real else 0.0
  }

  function RegisteredBy(radiologistId: string): Patient -> bool
  {
    (p: Patient) => p.details.registeredBy == radiologistId
  }

  /** `Array.prototype.filter`. */
  function Filter(s: seq<Patient>, keep: Patient -> bool): (r: seq<Patient>)
    ensures forall i :: 0 <= i < |r| ==> keep(r[i]) && r[i] in s
    ensures forall p :: p in s && keep(p) ==> p in r
  {
    if s == [] then [] else (if keep(s[0]) then [s[0]] else []) + Filter(s[1..], keep)
  }

  /** Filtering all documents in scan order lists the same records as the `where` query. */
  lemma {:induction false} FilterIsWhere(patients: map<string, Patient>, scan: seq<string>, keep: Patient -> bool)
    requires forall k :: k in scan ==> k in patients
    ensures Filter(Fetch(patients, scan), keep) == Fetch(patients, Where(scan, patients, keep))
  {
    if scan != [] {
      var tail := scan[1..];
      FilterIsWhere(patients, tail, keep);
      var all := Fetch(patients, scan);
      var first := patients[scan[0]];
      assert all[0] == first;
      assert all[1..] == Fetch(patients, tail);
      var head := if keep(first) then [scan[0]] else [];
      var rest := Where(tail, patients, keep);
      assert Where(scan, patients, keep) == head + rest;
      assert Filter(all, keep) == (if keep(first) then [first] else []) + Filter(Fetch(patients, tail), keep);
      assert Fetch(patients, head) == (if keep(first) then [first] else []);
      FetchAppend(patients, head, rest);
    }
  }

  /** What getPatientsByRadiologist returns on either path: the matching records, newest first. */
  function RadiologistPatients(patients: map<string, Patient>, scan: seq<string>, radiologistId: string)
    : (r: seq<Patient>)
    requires IsScanOrder(scan, patients)
    ensures forall i :: 0 <= i < |r| ==> r[i].details.registeredBy == radiologistId
    ensures forall i, j :: 0 <= i < j < |r| ==> CreatedOrZero(r[i]) >= CreatedOrZero(r[j])
  {
    var ids := Where(scan, patients, RegisteredBy(radiologistId));
    var found := Fetch(patients, ids);
    assert forall i :: 0 <= i < |found| ==> found[i].details.registeredBy == radiologistId by {
      forall i | 0 <= i < |found| ensures found[i].details.registeredBy == radiologistId {
        assert found[i] == patients[ids[i]] && RegisteredBy(radiologistId)(patients[ids[i]]);
      }
    }
    var sorted := SortDesc(found, CreatedOrZero);
    SortedRegistered(found, radiologistId, sorted);
    sorted
  }

  /** Sorting by creation time keeps a list of one radiologist's patients to that radiologist. */
  lemma SortedRegistered(found: seq<Patient>, radiologistId: string, r: seq<Patient>)
    requires forall i :: 0 <= i < |found| ==> found[i].details.registeredBy == radiologistId
    requires r == SortDesc(found, CreatedOrZero)
    ensures forall i :: 0 <= i < |r| ==> r[i].details.registeredBy == radiologistId
    ensures forall i, j :: 0 <= i < j < |r| ==> CreatedOrZero(r[i]) >= CreatedOrZero(r[j])
  {
    SortDescSpec(found, CreatedOrZero);
    forall i | 0 <= i < |r| ensures r[i].details.registeredBy == radiologistId {
      assert r[i] in found;
    }
  }

  ghost function RegisteredIds(patients: map<string, Patient>, radiologistId: string): set<string>
  {
    set k | k in patients && patients[k].details.registeredBy == radiologistId
  }

  /**
   * Only the radiologist's patients, every one of them, each once (a
   * permutation of the query's records), by non-increasing creation time
   * with a missing time counted as 0.
   */
  lemma RadiologistPatientsSpec(patients: map<string, Patient>, scan: seq<string>, radiologistId: string)
    requires IsScanOrder(scan, patients)
    ensures var r := RadiologistPatients(patients, scan, radiologistId);
      && multiset(r) == multiset(Fetch(patients, Where(scan, patients, RegisteredBy(radiologistId))))
      && (forall i :: 0 <= i < |r| ==> r[i].details.registeredBy == radiologistId && r[i] in patients.Values)
      && (forall k :: k in RegisteredIds(patients, radiologistId) ==> patients[k] in r)
      && (forall i, j :: 0 <= i < j < |r| ==> CreatedOrZero(r[i]) >= CreatedOrZero(r[j]))
      && |r| == |RegisteredIds(patients, radiologistId)|
  {
    var fetched := Fetch(patients, Where(scan, patients, RegisteredBy(radiologistId)));
    var r := SortDesc(fetched, CreatedOrZero);
    SortDescSpec(fetched, CreatedOrZero);
    WhereFetchSpec(scan, patients, RegisteredBy(radiologistId), RegisteredIds(patients, radiologistId));
    forall i | 0 <= i < |r| ensures r[i].details.registeredBy == radiologistId && r[i] in patients.Values {
      assert r[i] in fetched;
    }
  }

  /** Sorts a list of patients in place with the comparator of both paths. */
  method SortByCreatedDesc(list: seq<Patient>) returns (sorted: seq<Patient>)
    ensures sorted == SortDesc(list, CreatedOrZero)
  {
    var a := new Patient[|list|](i requires 0 <= i < |list| => list[i]);
    assert a[..] == list;
    SortInPlace(a, CreatedOrZero);
    sorted := a[..];
  }

  /**
   * getPatientsByRadiologist. The `where` query may fail (`primaryFails`);
   * the fallback then reads the whole collection (which may fail too,
   * `fallbackFails`, and that error is passed on), filters on
   * `registeredBy` and sorts the same way. Both paths return the same list.
   */
  method GetPatientsByRadiologist(
    patients: map<string, Patient>, scan: seq<string>, radiologistId: string, primaryFails: bool, fallbackFails: bool)
    returns (r: Result<seq<Patient>, StoreError>)
    requires IsScanOrder(scan, patients)
    ensures r.Failure? <==> primaryFails && fallbackFails
    ensures r.Failure? ==> r.error == QueryFailed
    ensures r.Success? ==> r.value == RadiologistPatients(patients, scan, radiologistId)
  {
    var keep := RegisteredBy(radiologistId);
    if !primaryFails {
      var found := Fetch(patients, Where(scan, patients, keep));
      var sorted := SortByCreatedDesc(found);
      r := Success(sorted);
    } else if fallbackFails {
      r := Failure(QueryFailed);
    } else {
      var all := Fetch(patients, scan);
      var filtered := Filter(all, keep);
      FilterIsWhere(patients, scan, keep);
      var sorted := SortByCreatedDesc(filtered);
      r := Success(sorted);
    }
  }
}

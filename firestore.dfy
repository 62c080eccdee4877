/**
 * The document store the services write to: four collections, each a map
 * from document id to record. Id generation (`addDoc`) and
 * `serverTimestamp()` are not modelled here; the services take the new
 * document id and the server time as parameters.
 *
 * Queries are modelled by a scan order: the sequence in which the store
 * lists the documents of a collection. `where` keeps the matching ids in
 * that order and `orderBy(createdAt, 'desc')` is the stable sort of
 * StableSort on top of it, so ties are left in scan order.
 */
module Firestore {
  import opened Types
  import opened StableSort

  class Db {
    var reports: map<string, Report>
    var prescriptions: map<string, Prescription>
    var notifications: map<string, Notification>
    var patients: map<string, Patient>

    constructor ()
      ensures reports == map[] && prescriptions == map[]
      ensures notifications == map[] && patients == map[]
      ensures Valid()
    {
      reports := map[];
      prescriptions := map[];
      notifications := map[];
      patients := map[];
    }

    /** Every document carries its own id, as the services' writers leave it. */
    ghost predicate Valid()
      reads this
    {
      && (forall k :: k in reports ==> reports[k].id == k)
      && (forall k :: k in prescriptions ==> prescriptions[k].prescriptionId == k)
      && (forall k :: k in notifications ==> notifications[k].id == k && notifications[k].notificationId == k)
      && (forall k :: k in patients ==> patients[k].patientId == k)
    }
  }

  /** What a store call can fail with: `updateDoc` on a document that does not exist, or a failed query. */
  datatype StoreError = NoDocument | QueryFailed

  /** `scan` lists every document id of the collection exactly once. */
  ghost predicate IsScanOrder<T>(scan: seq<string>, docs: map<string, T>)
  {
    && Distinct(scan)
    && (forall k :: k in scan ==> k in docs)
    && (forall k :: k in docs ==> k in scan)
  }

  /** A `where` query: the ids of the documents that satisfy `keep`, in scan order. */
  function Where<T>(scan: seq<string>, docs: map<string, T>, keep: T -> bool): (ids: seq<string>)
    requires forall k :: k in scan ==> k in docs
    ensures forall i :: 0 <= i < |ids| ==> ids[i] in scan && keep(docs[ids[i]])
    ensures forall k :: k in scan && keep(docs[k]) ==> k in ids
    ensures Distinct(scan) ==> Distinct(ids)
    ensures |ids| <= |scan|
  {
    if scan == [] then []
    else
      var rest := Where(scan[1..], docs, keep);
      assert forall i :: 0 <= i < |rest| ==> rest[i] in scan by {
        forall i | 0 <= i < |rest| ensures rest[i] in scan {
          assert rest[i] in scan[1..];
        }
      }
      assert Distinct(scan) ==> scan[0] !in rest by {
        forall i | 0 <= i < |rest| && Distinct(scan) ensures rest[i] != scan[0] {
          assert rest[i] in scan[1..];
          var m :| 0 <= m < |scan[1..]| && scan[1..][m] == rest[i];
          assert scan[m + 1] == rest[i];
        }
      }
      (if keep(docs[scan[0]]) then [scan[0]] else []) + rest
  }

  /** The key by which `orderBy(createdAt, 'desc')` sorts document ids. */
  function StampOf<T>(docs: map<string, T>, stamp: T -> real): string -> real
  {
    k => if k in docs then stamp(docs[k]) else 0.0
  }

  /**
   * `where(...)` with `orderBy(createdAt, 'desc')`: exactly the matching
   * documents, each once, newest first.
   */
  function WhereNewestFirst<T>(scan: seq<string>, docs: map<string, T>, keep: T -> bool, stamp: T -> real)
    : (ids: seq<string>)
    requires IsScanOrder(scan, docs)
    ensures forall i :: 0 <= i < |ids| ==> ids[i] in docs && keep(docs[ids[i]])
    ensures forall k :: k in docs && keep(docs[k]) ==> k in ids
    ensures Distinct(ids)
    ensures forall i, j :: 0 <= i < j < |ids| ==> stamp(docs[ids[i]]) >= stamp(docs[ids[j]])
  {
    var matching := Where(scan, docs, keep);
    SortedQuery(matching, docs, keep, stamp);
    SortDesc(matching, StampOf(docs, stamp))
  }

  lemma SortedQuery<T>(matching: seq<string>, docs: map<string, T>, keep: T -> bool, stamp: T -> real)
    requires forall i :: 0 <= i < |matching| ==> matching[i] in docs && keep(docs[matching[i]])
    requires Distinct(matching)
    ensures var sorted := SortDesc(matching, StampOf(docs, stamp));
      && (forall i :: 0 <= i < |sorted| ==> sorted[i] in docs && keep(docs[sorted[i]]))
      && (forall k :: k in matching ==> k in sorted)
      && Distinct(sorted)
      && (forall i, j :: 0 <= i < j < |sorted| ==> stamp(docs[sorted[i]]) >= stamp(docs[sorted[j]]))
  {
    var key := StampOf(docs, stamp);
    var sorted := SortDesc(matching, key);
    SortDescSpec(matching, key);
    DistinctByMultiset(matching, sorted);
    forall i | 0 <= i < |sorted| ensures sorted[i] in docs && keep(docs[sorted[i]]) {
      assert sorted[i] in sorted;
      var m :| 0 <= m < |matching| && matching[m] == sorted[i];
    }
    forall i, j | 0 <= i < j < |sorted| ensures stamp(docs[sorted[i]]) >= stamp(docs[sorted[j]]) {
      assert key(sorted[i]) >= key(sorted[j]);
    }
  }

  /** The documents behind a list of ids, as `querySnapshot.docs.map(doc => doc.data())` lists them. */
  function Fetch<T>(docs: map<string, T>, ids: seq<string>): (r: seq<T>)
    requires forall i :: 0 <= i < |ids| ==> ids[i] in docs
    ensures |r| == |ids|
    ensures forall i :: 0 <= i < |ids| ==> r[i] == docs[ids[i]]
  {
    seq(|ids|, i requires 0 <= i < |ids| => docs[ids[i]])
  }

  /** A list of distinct ids that holds exactly the matching keys is as long as there are matching documents. */
  lemma MatchCount<T>(ids: seq<string>, docs: map<string, T>, keep: T -> bool, matches: set<string>)
    requires Distinct(ids)
    requires forall i :: 0 <= i < |ids| ==> ids[i] in docs && keep(docs[ids[i]])
    requires forall k :: k in docs && keep(docs[k]) ==> k in ids
    requires forall k :: k in matches <==> k in docs && keep(docs[k])
    ensures |ids| == |matches|
  {
    DistinctCardinality(ids);
    assert (set k | k in ids) == matches by {
      forall k | k in ids ensures k in matches {
        var i :| 0 <= i < |ids| && ids[i] == k;
      }
    }
  }

  lemma {:induction false} DistinctCardinality(s: seq<string>)
    requires Distinct(s)
    ensures |set k | k in s| == |s|
  {
    if s != [] {
      var rest := s[1..];
      DistinctCardinality(rest);
      assert s[0] !in rest by {
        forall m | 0 <= m < |rest| ensures rest[m] != s[0] {
          assert rest[m] == s[m + 1];
        }
      }
      assert (set k | k in s) == (set k | k in rest) + {s[0]} by {
        assert s == [s[0]] + rest;
      }
    }
  }

  /** The number of documents a `where` query returns is the number of matching documents. */
  lemma WhereSize<T>(scan: seq<string>, docs: map<string, T>, keep: T -> bool, matches: set<string>)
    requires IsScanOrder(scan, docs)
    requires forall k :: k in matches <==> k in docs && keep(docs[k])
    ensures |Where(scan, docs, keep)| == |matches|
  {
    MatchCount(Where(scan, docs, keep), docs, keep, matches);
  }

  /**
   * A listing query (`where` and `orderBy(createdAt, 'desc')`, then the
   * documents' data): only matching documents, every matching document,
   * newest first, one entry per matching document.
   */
  lemma NewestFirstSpec<T>(scan: seq<string>, docs: map<string, T>, keep: T -> bool, stamp: T -> real, matches: set<string>)
    requires IsScanOrder(scan, docs)
    requires forall k :: k in matches <==> k in docs && keep(docs[k])
    ensures var r := Fetch(docs, WhereNewestFirst(scan, docs, keep, stamp));
      && (forall i :: 0 <= i < |r| ==> keep(r[i]) && r[i] in docs.Values)
      && (forall k :: k in matches ==> docs[k] in r)
      && (forall i, j :: 0 <= i < j < |r| ==> stamp(r[i]) >= stamp(r[j]))
      && |r| == |matches|
  {
    var ids := WhereNewestFirst(scan, docs, keep, stamp);
    var r := Fetch(docs, ids);
    MatchCount(ids, docs, keep, matches);
    forall k | k in matches ensures docs[k] in r {
      var i :| 0 <= i < |ids| && ids[i] == k;
      assert r[i] == docs[k];
    }
  }

  /** The first id of a `where` query is the first matching document in scan order. */
  lemma {:induction false} WhereFirst<T>(scan: seq<string>, docs: map<string, T>, keep: T -> bool) returns (j: nat)
    requires forall k :: k in scan ==> k in docs
    ensures Where(scan, docs, keep) == [] <==> forall i :: 0 <= i < |scan| ==> !keep(docs[scan[i]])
    ensures Where(scan, docs, keep) != [] ==>
      && j < |scan| && Where(scan, docs, keep)[0] == scan[j]
      && forall i :: 0 <= i < j ==> !keep(docs[scan[i]])
  {
    if scan == [] {
      j := 0;
    } else if keep(docs[scan[0]]) {
      j := 0;
    } else {
      var rest := scan[1..];
      assert Where(scan, docs, keep) == Where(rest, docs, keep);
      var j' := WhereFirst(rest, docs, keep);
      j := j' + 1;
      assert forall i :: 0 < i < |scan| ==> scan[i] == rest[i - 1];
    }
  }

  lemma FetchAppend<T>(docs: map<string, T>, a: seq<string>, b: seq<string>)
    requires forall i :: 0 <= i < |a| ==> a[i] in docs
    requires forall i :: 0 <= i < |b| ==> b[i] in docs
    ensures Fetch(docs, a + b) == Fetch(docs, a) + Fetch(docs, b)
  {
    var ab := a + b;
    assert forall i :: 0 <= i < |ab| ==> ab[i] in docs by {
      forall i | 0 <= i < |ab| ensures ab[i] in docs {
        if i >= |a| {
          assert ab[i] == b[i - |a|];
        }
      }
    }
  }

  /** A `where` query's documents: only matching ones, every matching one, one entry per matching document. */
  lemma WhereFetchSpec<T>(scan: seq<string>, docs: map<string, T>, keep: T -> bool, matches: set<string>)
    requires IsScanOrder(scan, docs)
    requires forall k :: k in matches <==> k in docs && keep(docs[k])
    ensures var r := Fetch(docs, Where(scan, docs, keep));
      && (forall i :: 0 <= i < |r| ==> keep(r[i]) && r[i] in docs.Values)
      && (forall k :: k in matches ==> docs[k] in r)
      && |r| == |matches|
  {
    var ids := Where(scan, docs, keep);
    var r := Fetch(docs, ids);
    MatchCount(ids, docs, keep, matches);
    forall k | k in matches ensures docs[k] in r {
      var i :| 0 <= i < |ids| && ids[i] == k;
      assert r[i] == docs[k];
    }
  }
}

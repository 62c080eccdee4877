/**
 * services/notificationService.ts: creating notifications, listing a
 * user's notifications, marking notifications read and counting the
 * unread ones.
 */
module NotificationService {
  import opened Wrappers
  import opened Types
  import opened StableSort
  import opened Firestore

  /** `reportId || null`: a missing or empty report id is stored as null. */
  function ReportLink(reportId: Option<string>): (r: Option<string>)
    ensures r.None? <==> reportId.None? || reportId == Some("")
    ensures r.Some? ==> r == reportId
  {
    if reportId == Some("") then None else reportId
  }

  /** The notification document createNotification leaves behind. */
  function NewNotification(
    id: string, now: Timestamp, userId: string, kind: NotificationKind, message: string, reportId: Option<string>)
    : (n: Notification)
    ensures n.id == id && n.notificationId == id && !n.isRead
  {
    Notification(id, id, userId, kind, message, message, ReportLink(reportId), false, now)
  }

  /**
   * createNotification. `newId` is the id `addDoc` allocates and `now`
   * the server timestamp. The document is added without ids, then given
   * `id`, then `notificationId`.
   */
  method CreateNotification(
    db: Db, newId: string, now: Timestamp, userId: string, kind: NotificationKind, message: string,
    reportId: Option<string>)
    returns (id: string)
    requires newId !in db.notifications
    modifies db
    ensures id == newId
    ensures db.notifications == old(db.notifications)[newId := NewNotification(newId, now, userId, kind, message, reportId)]
    ensures db.reports == old(db.reports) && db.prescriptions == old(db.prescriptions) && db.patients == old(db.patients)
    ensures old(db.Valid()) ==> db.Valid()
  {
    var added := Notification("", "", userId, kind, message, message, ReportLink(reportId), false, now);
    db.notifications := db.notifications[newId := added];
    db.notifications := db.notifications[newId := db.notifications[newId].(id := newId)];
    db.notifications := db.notifications[newId := db.notifications[newId].(notificationId := newId)];
    id := newId;
  }

  /** A fresh notification is unread, carries the message as title and body, and links a non-empty report id. */
  lemma NewNotificationSpec(
    id: string, now: Timestamp, userId: string, kind: NotificationKind, message: string, reportId: Option<string>)
    ensures var n := NewNotification(id, now, userId, kind, message, reportId);
      && n.id == id && n.notificationId == id && n.userId == userId && n.kind == kind
      && n.title == message && n.body == message && !n.isRead && n.createdAt == now
      && (n.reportId.Some? <==> reportId.Some? && reportId.value != "")
      && (n.reportId.Some? ==> n.reportId == reportId)
  {
  }

  function ByUser(userId: string): Notification -> bool
  {
    (n: Notification) => n.userId == userId
  }

  function CreatedAt(n: Notification): real
  {
    n.createdAt as real
  }

  /** getNotificationsByUser: the user's notifications, newest first. */
  function NotificationsByUser(notifications: map<string, Notification>, scan: seq<string>, userId: string)
    : (r: seq<Notification>)
    requires IsScanOrder(scan, notifications)
    ensures forall i :: 0 <= i < |r| ==> r[i].userId == userId
    ensures forall i, j :: 0 <= i < j < |r| ==> r[i].createdAt >= r[j].createdAt
  {
    Fetch(notifications, WhereNewestFirst(scan, notifications, ByUser(userId), CreatedAt))
  }

  /** The ids of a user's notifications. */
  ghost function UserIds(notifications: map<string, Notification>, userId: string): set<string>
  {
    set k | k in notifications && notifications[k].userId == userId
  }

  /** The listing holds every notification of the user and no other, each once, newest first. */
  lemma NotificationsByUserSpec(notifications: map<string, Notification>, scan: seq<string>, userId: string)
    requires IsScanOrder(scan, notifications)
    ensures var r := NotificationsByUser(notifications, scan, userId);
      && (forall i :: 0 <= i < |r| ==> r[i].userId == userId && r[i] in notifications.Values)
      && (forall k :: k in UserIds(notifications, userId) ==> notifications[k] in r)
      && (forall i, j :: 0 <= i < j < |r| ==> r[i].createdAt >= r[j].createdAt)
      && |r| == |UserIds(notifications, userId)|
  {
    NewestFirstSpec(scan, notifications, ByUser(userId), CreatedAt, UserIds(notifications, userId));
  }

  /** The store after every listed notification that exists has been marked read. */
  function MarkRead(notifications: map<string, Notification>, ids: seq<string>): (r: map<string, Notification>)
    ensures r.Keys == notifications.Keys
    ensures forall k :: k in r && k in ids ==> r[k].isRead
  {
    map k | k in notifications :: if k in ids then notifications[k].(isRead := true) else notifications[k]
  }

  /** Marking read keeps every document, sets isRead on exactly the listed ones and changes nothing else. */
  lemma MarkReadSpec(notifications: map<string, Notification>, ids: seq<string>)
    ensures MarkRead(notifications, ids).Keys == notifications.Keys
    ensures forall k :: k in notifications && k in ids ==>
      MarkRead(notifications, ids)[k] == notifications[k].(isRead := true)
    ensures forall k :: k in notifications && k !in ids ==>
      MarkRead(notifications, ids)[k] == notifications[k]
  {
  }

  /** Marking the same notifications read twice is the same as once. */
  lemma MarkReadIdempotent(notifications: map<string, Notification>, ids: seq<string>)
    ensures MarkRead(MarkRead(notifications, ids), ids) == MarkRead(notifications, ids)
  {
    var once := MarkRead(notifications, ids);
    assert MarkRead(once, ids).Keys == once.Keys;
  }

  /**
   * markNotificationsAsRead. Promise.all runs the updates concurrently;
   * here they run in list order. Each existing notification is marked
   * read; a missing one makes the call fail, without undoing the others.
   */
  method MarkNotificationsAsRead(db: Db, ids: seq<string>) returns (r: Result<(), StoreError>)
    modifies db
    ensures db.notifications == MarkRead(old(db.notifications), ids)
    ensures r.Failure? <==> exists i :: 0 <= i < |ids| && ids[i] !in old(db.notifications)
    ensures db.reports == old(db.reports) && db.prescriptions == old(db.prescriptions) && db.patients == old(db.patients)
    ensures old(db.Valid()) ==> db.Valid()
  {
    ghost var before := db.notifications;
    var failed := false;
    var n := 0;
    while n < |ids|
      invariant 0 <= n <= |ids|
      invariant db.notifications == MarkRead(before, ids[..n])
      invariant failed <==> exists i :: 0 <= i < n && ids[i] !in before
      invariant db.reports == old(db.reports) && db.prescriptions == old(db.prescriptions) && db.patients == old(db.patients)
    {
      var id := ids[n];
      assert ids[..n + 1] == ids[..n] + [id];
      MarkReadStep(before, ids[..n], id);
      if id in db.notifications {
        db.notifications := db.notifications[id := db.notifications[id].(isRead := true)];
      } else {
        failed := true;
      }
      n := n + 1;
    }
    assert ids[..n] == ids;
    if failed {
      r := Failure(NoDocument);
    } else {
      r := Success(());
    }
  }

  /** Marking one more id read updates just that notification, if it exists. */
  lemma MarkReadStep(notifications: map<string, Notification>, ids: seq<string>, id: string)
    ensures var current := MarkRead(notifications, ids);
      && (id in current <==> id in notifications)
      && MarkRead(notifications, ids + [id]) ==
        if id in current then current[id := current[id].(isRead := true)] else current
  {
    var current := MarkRead(notifications, ids);
    var next := MarkRead(notifications, ids + [id]);
    assert current.Keys == notifications.Keys;
    if id in current {
      assert next == current[id := current[id].(isRead := true)] by {
        forall k | k in next ensures next[k] == current[id := current[id].(isRead := true)][k] {
          if k != id {
            assert k in ids + [id] <==> k in ids;
          }
        }
      }
    } else {
      assert next == current by {
        forall k | k in next ensures next[k] == current[k] {
          assert k in ids + [id] <==> k in ids;
        }
      }
    }
  }

  function Unread(userId: string): Notification -> bool
  {
    (n: Notification) => n.userId == userId && !n.isRead
  }

  /** The ids of a user's unread notifications. */
  ghost function UnreadIds(notifications: map<string, Notification>, userId: string): set<string>
  {
    set k | k in notifications && notifications[k].userId == userId && !notifications[k].isRead
  }

  /**
   * getUnreadNotificationCount: the size of the unread query's result;
   * 0 when the query fails (`queryFails`).
   */
  function UnreadCount(notifications: map<string, Notification>, scan: seq<string>, userId: string, queryFails: bool)
    : (r: nat)
    requires forall k :: k in scan ==> k in notifications
    ensures r <= |scan|
    ensures queryFails ==> r == 0
    ensures !queryFails && IsScanOrder(scan, notifications) ==> r == |UnreadIds(notifications, userId)|
  {
    UnreadMatches(notifications, scan, userId);
    if queryFails then 0 else |Where(scan, notifications, Unread(userId))|
  }

  /** In a scan order, the unread query lists as many ids as the user has unread notifications. */
  lemma UnreadMatches(notifications: map<string, Notification>, scan: seq<string>, userId: string)
    requires forall k :: k in scan ==> k in notifications
    ensures IsScanOrder(scan, notifications) ==>
      |Where(scan, notifications, Unread(userId))| == |UnreadIds(notifications, userId)|
  {
    if IsScanOrder(scan, notifications) {
      WhereSize(scan, notifications, Unread(userId), UnreadIds(notifications, userId));
    }
  }

  /** The count is the number of the user's unread notifications, or 0 when the query fails. */
  lemma UnreadCountSpec(notifications: map<string, Notification>, scan: seq<string>, userId: string, queryFails: bool)
    requires IsScanOrder(scan, notifications)
    ensures queryFails ==> UnreadCount(notifications, scan, userId, queryFails) == 0
    ensures !queryFails ==> UnreadCount(notifications, scan, userId, queryFails) == |UnreadIds(notifications, userId)|
  {
  }

  /** After marking notifications read, a user's unread set loses exactly the listed ids. */
  lemma UnreadAfterMark(notifications: map<string, Notification>, ids: seq<string>, userId: string)
    ensures UnreadIds(MarkRead(notifications, ids), userId) == UnreadIds(notifications, userId) - set i | i in ids
  {
    MarkReadSpec(notifications, ids);
  }

  /** A scan order of the store is still one after marking read. */
  lemma MarkReadKeepsScanOrder(notifications: map<string, Notification>, ids: seq<string>, scan: seq<string>)
    requires IsScanOrder(scan, notifications)
    ensures IsScanOrder(scan, MarkRead(notifications, ids))
  {
    MarkReadSpec(notifications, ids);
  }

  /** Marking all of a user's unread notifications read brings the count to zero. */
  lemma MarkAllReadClearsCount(notifications: map<string, Notification>, scan: seq<string>, userId: string, ids: seq<string>)
    requires IsScanOrder(scan, notifications)
    requires forall k :: k in UnreadIds(notifications, userId) ==> k in ids
    ensures IsScanOrder(scan, MarkRead(notifications, ids))
    ensures UnreadCount(MarkRead(notifications, ids), scan, userId, false) == 0
  {
    MarkReadKeepsScanOrder(notifications, ids, scan);
    UnreadCountSpec(MarkRead(notifications, ids), scan, userId, false);
    UnreadAfterMark(notifications, ids, userId);
    assert UnreadIds(MarkRead(notifications, ids), userId) == {};
  }
}

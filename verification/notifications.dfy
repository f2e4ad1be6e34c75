/** Notifications of the client application
    (client-project/src/notifications/services/notifications.service.ts): a user's
    inbox with its total and unread count, and the read flag and deletion, each
    scoped to the notifications the caller owns. */
module Notifications {
  import opened Common
  import opened Store

  // ---------------------------------------------------------------------------
  // Filters over the notification table.
  // ---------------------------------------------------------------------------

  function OwnedBy(userId: UserId): Notification -> bool
  {
    (n: Notification) => n.userId == userId
  }

  function UnreadOf(userId: UserId): Notification -> bool
  {
    (n: Notification) => n.userId == userId && !n.isRead
  }

  /** `where: { id, userAccountId }`: the caller's notification with that id. */
  function Target(userId: UserId, id: RowId): Notification -> bool
  {
    (n: Notification) => n.id == id && n.userId == userId
  }

  function HasId(id: RowId): Notification -> bool
  {
    (n: Notification) => n.id == id
  }

  function NotTarget(userId: UserId, id: RowId): Notification -> bool
  {
    (n: Notification) => !(n.id == id && n.userId == userId)
  }

  /** `updateMany({ where: p, data: { isRead: true } })`: every row matching `p` is
      marked read in place, and the rest are kept. */
  function MarkRead(s: seq<Notification>, p: Notification -> bool): (r: seq<Notification>)
    ensures |r| == |s|
    ensures forall i :: 0 <= i < |s| ==> r[i] == (if p(s[i]) then s[i].(isRead := true) else s[i])
  {
    if s == [] then []
    else
      var n := s[|s| - 1];
      MarkRead(s[..|s| - 1], p) + [if p(n) then n.(isRead := true) else n]
  }

  /** A count blind to the read flag is the same after marking. */
  lemma {:induction false} CountMarkRead(s: seq<Notification>, p: Notification -> bool, q: Notification -> bool)
    requires forall n: Notification :: q(n.(isRead := true)) == q(n)
    ensures Count(MarkRead(s, p), q) == Count(s, q)
  {
    if s != [] {
      var m := MarkRead(s, p);
      CountMarkRead(s[..|s| - 1], p, q);
      assert m[..|s| - 1] == MarkRead(s[..|s| - 1], p);
    }
  }

  /** Marking a user's unread notifications read leaves none of them unread. */
  lemma {:induction false} MarkAllLeavesNoneUnread(s: seq<Notification>, userId: UserId)
    ensures Count(MarkRead(s, UnreadOf(userId)), UnreadOf(userId)) == 0
  {
    if s != [] {
      var m := MarkRead(s, UnreadOf(userId));
      MarkAllLeavesNoneUnread(s[..|s| - 1], userId);
      assert m[..|s| - 1] == MarkRead(s[..|s| - 1], UnreadOf(userId));
    }
  }

  /** Marking is idempotent. */
  lemma MarkReadIdempotent(s: seq<Notification>, p: Notification -> bool)
    requires forall n: Notification :: p(n.(isRead := true)) == p(n)
    ensures MarkRead(MarkRead(s, p), p) == MarkRead(s, p)
  {
  }

  /** The table's id count is a count with the id filter. */
  lemma {:induction false} IdRowsIsCount(s: seq<Notification>, id: RowId)
    ensures IdRows(s, id) == Count(s, HasId(id))
  {
    if s != [] {
      IdRowsIsCount(s[..|s| - 1], id);
    }
  }

  /** Keeping some rows never raises a count. */
  lemma {:induction false} CountFilter(s: seq<Notification>, p: Notification -> bool, q: Notification -> bool)
    ensures Count(Filter(s, p), q) <= Count(s, q)
  {
    if s != [] {
      CountFilter(s[..|s| - 1], p, q);
      if p(s[|s| - 1]) {
        CountAppend(Filter(s[..|s| - 1], p), s[|s| - 1], q);
      }
    }
  }

  /** The rows a filter drops are the rows its complement keeps. */
  lemma {:induction false} FilterComplement(s: seq<Notification>, userId: UserId, id: RowId)
    ensures |Filter(s, NotTarget(userId, id))| + Count(s, Target(userId, id)) == |s|
  {
    if s != [] {
      FilterComplement(s[..|s| - 1], userId, id);
    }
  }

  // ---------------------------------------------------------------------------
  // The service.
  // ---------------------------------------------------------------------------

  /** `{ data, total, unreadCount, skip, take }`. */
  datatype Inbox = Inbox(data: seq<Notification>, total: nat, unreadCount: nat, skip: nat, take: nat)

  function NewestNotification(): Notification -> seq<int>
  {
    (n: Notification) => [n.createdAt]
  }

  /** `getNotifications`: only the caller's notifications, newest first, in the window;
      the total counts all of them and the unread count the unread ones among them. */
  function GetNotifications(db: Db, userId: UserId, skip: nat, take: nat): (r: Inbox)
    reads db
    ensures r.total == Count(db.notifications, OwnedBy(userId))
    ensures r.unreadCount == Count(db.notifications, UnreadOf(userId))
    ensures r.unreadCount <= r.total
    ensures r.skip == skip && r.take == take && |r.data| <= take && |r.data| <= r.total
    ensures forall n :: n in r.data ==> n in db.notifications && n.userId == userId
    ensures forall i, j :: 0 <= i < j < |r.data| ==> r.data[i].createdAt >= r.data[j].createdAt
  {
    var rows := Query(db.notifications, OwnedBy(userId), NewestNotification(), skip, take);
    SortedByColumn(rows, NewestNotification(), (n: Notification) => n.createdAt);
    CountMonotone(db.notifications, UnreadOf(userId), OwnedBy(userId));
    Inbox(rows, Count(db.notifications, OwnedBy(userId)), Count(db.notifications, UnreadOf(userId)), skip, take)
  }

  /** With a window from 0 that holds them all, every notification of the caller is
      in the inbox. */
  lemma GetNotificationsComplete(db: Db, userId: UserId, take: nat, n: Notification)
    requires Count(db.notifications, OwnedBy(userId)) <= take && n in db.notifications && n.userId == userId
    ensures n in GetNotifications(db, userId, 0, take).data
  {
    QueryHas(db.notifications, OwnedBy(userId), NewestNotification(), take, n);
  }

  /** `markAsRead`: the caller's notification with that id is marked read; another
      user's notification, or a missing id, changes nothing. No user's total changes. */
  method MarkAsRead(db: Db, userId: UserId, id: RowId) returns (r: string)
    modifies db`notifications
    ensures db.notifications == MarkRead(old(db.notifications), Target(userId, id))
    ensures forall i :: 0 <= i < |old(db.notifications)| && db.notifications[i] != old(db.notifications)[i] ==>
      old(db.notifications)[i].id == id && old(db.notifications)[i].userId == userId
    ensures forall u :: Count(db.notifications, OwnedBy(u)) == Count(old(db.notifications), OwnedBy(u))
    ensures old(db.NotificationsValid()) ==> db.NotificationsValid()
    ensures r == "Notification marked as read"
  {
    ghost var before := db.notifications;
    db.notifications := MarkRead(db.notifications, Target(userId, id));
    forall u ensures Count(db.notifications, OwnedBy(u)) == Count(before, OwnedBy(u)) {
      CountMarkRead(before, Target(userId, id), OwnedBy(u));
    }
    forall k ensures IdRows(db.notifications, k) == IdRows(before, k) {
      IdRowsIsCount(db.notifications, k);
      IdRowsIsCount(before, k);
      CountMarkRead(before, Target(userId, id), HasId(k));
    }
    r := "Notification marked as read";
  }

  /** `markAllAsRead`: afterwards the caller has nothing unread, and every other
      user's notifications are as they were. */
  method MarkAllAsRead(db: Db, userId: UserId) returns (r: string)
    modifies db`notifications
    ensures db.notifications == MarkRead(old(db.notifications), UnreadOf(userId))
    ensures Count(db.notifications, UnreadOf(userId)) == 0
    ensures forall i :: 0 <= i < |old(db.notifications)| && old(db.notifications)[i].userId != userId ==>
      db.notifications[i] == old(db.notifications)[i]
    ensures old(db.NotificationsValid()) ==> db.NotificationsValid()
    ensures r == "All notifications marked as read"
  {
    ghost var before := db.notifications;
    db.notifications := MarkRead(db.notifications, UnreadOf(userId));
    MarkAllLeavesNoneUnread(before, userId);
    forall k ensures IdRows(db.notifications, k) == IdRows(before, k) {
      IdRowsIsCount(db.notifications, k);
      IdRowsIsCount(before, k);
      CountMarkRead(before, UnreadOf(userId), HasId(k));
    }
    r := "All notifications marked as read";
  }

  /** `deleteNotification`: the caller's notification with that id is removed; ids
      being distinct, that is at most one row, and another user's notification is
      never removed. */
  method DeleteNotification(db: Db, userId: UserId, id: RowId) returns (r: string)
    modifies db`notifications
    ensures db.notifications == Filter(old(db.notifications), NotTarget(userId, id))
    ensures forall n :: n in old(db.notifications) && (n.userId != userId || n.id != id) ==> n in db.notifications
    ensures |db.notifications| == |old(db.notifications)| - Count(old(db.notifications), Target(userId, id))
    ensures old(db.NotificationsValid()) ==>
      db.NotificationsValid() && |old(db.notifications)| - 1 <= |db.notifications| <= |old(db.notifications)|
    ensures r == "Notification deleted"
  {
    ghost var before := db.notifications;
    db.notifications := Filter(db.notifications, NotTarget(userId, id));
    FilterComplement(before, userId, id);
    if NotificationIds(before, db.nextNotificationId) {
      IdRowsIsCount(before, id);
      CountMonotone(before, Target(userId, id), HasId(id));
      forall k ensures IdRows(db.notifications, k) <= IdRows(before, k) {
        IdRowsIsCount(db.notifications, k);
        IdRowsIsCount(before, k);
        CountFilter(before, NotTarget(userId, id), HasId(k));
      }
    }
    r := "Notification deleted";
  }
}

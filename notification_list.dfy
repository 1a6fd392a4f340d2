// The notifications list on the client: marking one or all as read and
// deleting one, each written to the notifications table and applied to the
// list on screen whatever the store answered.

module NotificationList {

  import opened Types
  import opened Seqs
  import opened Db

  /** The list with the notification of the given id marked read and every other one left as it was. */
  function MarkRead(ns: seq<Notification>, id: Id): (r: seq<Notification>)
    ensures |r| == |ns|
    ensures forall i :: 0 <= i < |ns| ==> r[i] == if ns[i].id == id then ns[i].(isRead := true) else ns[i]
  {
    if ns == [] then [] else [if ns[0].id == id then ns[0].(isRead := true) else ns[0]] + MarkRead(ns[1..], id)
  }

  /** The store's update that marks read every notification whose id is in the given list. */
  function MarkReadAmong(ns: seq<Notification>, ids: seq<Id>): (r: seq<Notification>)
    ensures |r| == |ns|
    ensures forall i :: 0 <= i < |ns| ==> r[i] == if ns[i].id in ids then ns[i].(isRead := true) else ns[i]
  {
    if ns == [] then [] else [if ns[0].id in ids then ns[0].(isRead := true) else ns[0]] + MarkReadAmong(ns[1..], ids)
  }

  /** The list with every notification marked read. */
  function MarkAll(ns: seq<Notification>): (r: seq<Notification>)
    ensures |r| == |ns|
    ensures forall i :: 0 <= i < |ns| ==> r[i] == ns[i].(isRead := true)
  {
    if ns == [] then [] else [ns[0].(isRead := true)] + MarkAll(ns[1..])
  }

  /** The ids of the unread notifications, in list order. */
  function UnreadIds(ns: seq<Notification>): (r: seq<Id>)
    ensures forall i :: 0 <= i < |ns| && !ns[i].isRead ==> ns[i].id in r
    ensures forall x :: x in r ==> exists i :: 0 <= i < |ns| && !ns[i].isRead && ns[i].id == x
  {
    if ns == [] then []
    else
      var rest := UnreadIds(ns[1..]);
      assert forall x :: x in rest ==> exists i :: 1 <= i < |ns| && !ns[i].isRead && ns[i].id == x by {
        forall x | x in rest ensures exists i :: 1 <= i < |ns| && !ns[i].isRead && ns[i].id == x {
          var j :| 0 <= j < |ns[1..]| && !ns[1..][j].isRead && ns[1..][j].id == x;
          assert ns[j + 1] == ns[1..][j];
        }
      }
      (if ns[0].isRead then [] else [ns[0].id]) + rest
  }

  /** The list without the notification of the given id; the store's delete by id does the same to the table. */
  function Without(ns: seq<Notification>, id: Id): (r: seq<Notification>)
    ensures IsSubsequence(r, ns)
    ensures forall n :: n in r <==> n in ns && n.id != id
  {
    FilterIsSubsequence(ns, (n: Notification) => n.id != id);
    FilterMembers(ns, (n: Notification) => n.id != id);
    Filter(ns, (n: Notification) => n.id != id)
  }

  /** hasUnread: whether some notification in the list is unread. */
  predicate HasUnread(ns: seq<Notification>)
  {
    exists i :: 0 <= i < |ns| && !ns[i].isRead
  }

  /** Marking one notification read touches only the entries with its id; doing it twice is doing it once. */
  lemma MarkReadSpec(ns: seq<Notification>, id: Id)
    ensures MarkRead(MarkRead(ns, id), id) == MarkRead(ns, id)
    ensures forall i :: 0 <= i < |ns| ==> (MarkRead(ns, id)[i].isRead <==> ns[i].isRead || ns[i].id == id)
    ensures forall i :: 0 <= i < |ns| ==> MarkRead(ns, id)[i].(isRead := ns[i].isRead) == ns[i]
  {
  }

  /** After "Segna tutte come lette" nothing is unread, and every entry is otherwise as it was. */
  lemma MarkAllSpec(ns: seq<Notification>)
    ensures !HasUnread(MarkAll(ns))
    ensures forall i :: 0 <= i < |ns| ==> MarkAll(ns)[i].(isRead := ns[i].isRead) == ns[i]
  {
  }

  /** The store side of "mark all": the rows listed as unread become read, the read ones stay read. */
  lemma MarkAllInStore(list: seq<Notification>, rows: seq<Notification>)
    requires forall i :: 0 <= i < |rows| ==> rows[i] in list
    ensures !HasUnread(MarkReadAmong(rows, UnreadIds(list)))
  {
    var r := MarkReadAmong(rows, UnreadIds(list));
    forall i | 0 <= i < |rows| ensures r[i].isRead {
      if !rows[i].isRead {
        var j :| 0 <= j < |list| && list[j] == rows[i];
      }
    }
  }

  /** Deleting one id removes every entry with it and no other, and never adds unread ones. */
  lemma WithoutSpec(ns: seq<Notification>, id: Id)
    ensures |Without(ns, id)| <= |ns|
    ensures HasUnread(Without(ns, id)) ==> HasUnread(ns)
  {
    SubsequenceShorter(Without(ns, id), ns);
    if HasUnread(Without(ns, id)) {
      var r := Without(ns, id);
      var i :| 0 <= i < |r| && !r[i].isRead;
      assert r[i] in ns;
      var j :| 0 <= j < |ns| && ns[j] == r[i];
    }
  }

  /** The list on screen; every action also writes to the store, and ignores what it answered. */
  class Inbox {
    var notifications: seq<Notification>

    constructor (initialNotifications: seq<Notification>)
      ensures notifications == initialNotifications
    {
      notifications := initialNotifications;
    }

    /** markAsRead(id) */
    method MarkAsRead(db: Database, id: Id, storeFails: bool)
      modifies this, db`notifications
      ensures db.notifications == if storeFails then old(db.notifications) else MarkRead(old(db.notifications), id)
      ensures notifications == MarkRead(old(notifications), id)
    {
      if !storeFails {
        db.notifications := MarkRead(db.notifications, id);
      }
      notifications := MarkRead(notifications, id);
    }

    /** markAllAsRead: the store update names the ids the list shows as unread. */
    method MarkAllAsRead(db: Database, storeFails: bool)
      modifies this, db`notifications
      ensures db.notifications == if storeFails then old(db.notifications) else MarkReadAmong(old(db.notifications), UnreadIds(old(notifications)))
      ensures notifications == MarkAll(old(notifications))
      ensures !HasUnread(notifications)
    {
      var unreadIds := UnreadIds(notifications);
      if !storeFails {
        db.notifications := MarkReadAmong(db.notifications, unreadIds);
      }
      notifications := MarkAll(notifications);
      MarkAllSpec(old(notifications));
    }

    /** deleteNotification(id) */
    method DeleteNotification(db: Database, id: Id, storeFails: bool)
      modifies this, db`notifications
      ensures db.notifications == if storeFails then old(db.notifications) else Without(old(db.notifications), id)
      ensures notifications == Without(old(notifications), id)
    {
      if !storeFails {
        db.notifications := Without(db.notifications, id);
      }
      notifications := Without(notifications, id);
    }
  }
}

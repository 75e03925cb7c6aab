// The notification inbox (src/components/Common/EmailNotifications.jsx): a
// list of notifications held by the component, the handlers that mark, delete
// and send them, the three views of the list, the unread counter and the
// "time ago" label.
module EmailNotifications {
  import opened Optional
  import opened Text
  import Lists
  import TimeAgo

  /** A notification; `kind` is the source's `type` field, `timestamp` is in milliseconds. */
  datatype Notification = Notification(id: int, kind: string, title: string, message: string, read: bool,
                                       timestamp: int, priority: string, actionUrl: string)

  function NotifId(n: Notification): int { n.id }

  function IsUnread(n: Notification): bool { !n.read }

  function MarkRead(): Notification -> Notification
  {
    (n: Notification) => n.(read := true)
  }

  /** `unreadCount`. */
  function UnreadCount(ns: seq<Notification>): (n: nat)
    ensures n <= |ns|
    ensures n == 0 <==> forall x :: x in ns ==> x.read
  {
    var unread := Lists.Filter(ns, IsUnread);
    assert unread != [] ==> unread[0] in unread;
    Lists.Count(ns, IsUnread)
  }

  /** The list after `handleMarkAsRead(id)`: only the notifications with that id become read. */
  function MarkedAsRead(ns: seq<Notification>, id: int): (r: seq<Notification>)
    ensures |r| == |ns|
    ensures forall i :: 0 <= i < |ns| ==> r[i] == if ns[i].id == id then ns[i].(read := true) else ns[i]
  {
    Lists.UpdateKeyAt(ns, NotifId, id, MarkRead());
    Lists.UpdateKey(ns, NotifId, id, MarkRead())
  }

  /** Marking the same notification twice is the same as marking it once. */
  lemma MarkAsReadIdempotent(ns: seq<Notification>, id: int)
    ensures MarkedAsRead(MarkedAsRead(ns, id), id) == MarkedAsRead(ns, id)
  {
    var once := MarkedAsRead(ns, id);
    var twice := MarkedAsRead(once, id);
    assert forall i :: 0 <= i < |ns| ==> once[i].id == ns[i].id;
    assert forall i :: 0 <= i < |ns| ==> twice[i] == once[i];
  }

  /** The list after `handleMarkAllAsRead`: every notification read, nothing else changed. */
  function AllMarkedAsRead(ns: seq<Notification>): (r: seq<Notification>)
    ensures |r| == |ns|
    ensures forall i :: 0 <= i < |ns| ==> r[i] == ns[i].(read := true)
    ensures UnreadCount(r) == 0
  {
    var r := Lists.Map(ns, MarkRead());
    Lists.FilterKeepsNone(r, IsUnread);
    r
  }

  /** The notification `handleSendNotification` builds, with its defaults for type and priority. */
  function NewNotification(title: string, message: string, kind: Option<string>, priority: Option<string>,
                           id: int, now: int): (n: Notification)
    ensures !n.read && n.actionUrl == "#" && n.id == id && n.timestamp == now
    ensures n.title == title && n.message == message
    ensures n.kind == (if kind.Some? then kind.value else "info")
    ensures n.priority == (if priority.Some? then priority.value else "medium")
  {
    Notification(id, if kind.Some? then kind.value else "info", title, message, false, now,
                 if priority.Some? then priority.value else "medium", "#")
  }

  /** Sending puts one unread notification in front: the list and the unread count each grow by one. */
  lemma SendAddsOneUnread(ns: seq<Notification>, n: Notification)
    requires !n.read
    ensures |[n] + ns| == |ns| + 1
    ensures UnreadCount([n] + ns) == UnreadCount(ns) + 1
  {
    assert ([n] + ns)[1..] == ns;
  }

  /** What each filter keeps: 'unread', 'high', or anything else, which keeps all. */
  function Keeps(filter: string): Notification -> bool
  {
    (n: Notification) =>
      if filter == "unread" then !n.read
      else if filter == "high" then n.priority == "high"
      else true
  }

  /** `filteredNotifications`. */
  function Filtered(ns: seq<Notification>, filter: string): (r: seq<Notification>)
    ensures Lists.IsSubsequence(r, ns)
    ensures filter == "unread" ==> (forall n :: n in r <==> n in ns && !n.read) && |r| == UnreadCount(ns)
    ensures filter == "high" ==> forall n :: n in r <==> n in ns && n.priority == "high"
    ensures filter != "unread" && filter != "high" ==> r == ns
  {
    UnreadFilterIsCount(ns);
    assert filter != "unread" && filter != "high" ==> Lists.Filter(ns, Keeps(filter)) == ns by {
      if filter != "unread" && filter != "high" {
        Lists.FilterKeepsAll(ns, Keeps(filter));
      }
    }
    Lists.Filter(ns, Keeps(filter))
  }

  lemma {:induction false} UnreadFilterIsCount(ns: seq<Notification>)
    ensures Lists.Filter(ns, Keeps("unread")) == Lists.Filter(ns, IsUnread)
    decreases |ns|
  {
    if ns != [] {
      UnreadFilterIsCount(ns[1..]);
    }
  }

  /** `formatTime` for an elapsed time in milliseconds; None where the source falls back to the locale date. */
  function FormatTime(diff: int): (shown: Option<string>)
    ensures shown.Some? <==> diff < 7 * TimeAgo.MsPerDay
  {
    match TimeAgo.Bucket(diff)
    case Minutes(n) => Some(IntText(n) + "m ago")
    case Hours(n) => Some(IntText(n) + "h ago")
    case Days(n) => Some(IntText(n) + "d ago")
    case Older => None
  }

  /** The label is given for less than a week, and determines the bucket it came from. */
  lemma FormatTimeDeterminesBucket(d1: int, d2: int)
    ensures FormatTime(d1).Some? <==> d1 < 7 * TimeAgo.MsPerDay
    ensures FormatTime(d1).Some? && FormatTime(d1) == FormatTime(d2) ==> TimeAgo.Bucket(d1) == TimeAgo.Bucket(d2)
  {
    if FormatTime(d1).Some? && FormatTime(d1) == FormatTime(d2) {
      var b1, b2 := TimeAgo.Bucket(d1), TimeAgo.Bucket(d2);
      var s := FormatTime(d1).value;
      var t1, t2 := IntText(b1.n), IntText(b2.n);
      var u1, u2 := s[|s| - 5..], s[..|s| - 5];
      assert u2 == t1 && u2 == t2 by {
        assert s == t1 + s[|t1|..] && s == t2 + s[|t2|..];
      }
      IntTextInjective(b1.n, b2.n);
    }
  }

  class Inbox {
    var notifications: seq<Notification>
    var filter: string

    constructor(initial: seq<Notification>)
      ensures notifications == initial && filter == "all"
    {
      notifications := initial;
      filter := "all";
    }

    /** `handleMarkAsRead`. */
    method MarkAsRead(id: int)
      modifies this
      ensures notifications == MarkedAsRead(old(notifications), id)
      ensures UnreadCount(notifications) <= UnreadCount(old(notifications))
      ensures filter == old(filter)
    {
      var marked := MarkedAsRead(notifications, id);
      UnreadNeverGrows(notifications, id);
      notifications := marked;
    }

    /** `handleMarkAllAsRead`. */
    method MarkAllAsRead()
      modifies this
      ensures notifications == AllMarkedAsRead(old(notifications))
      ensures UnreadCount(notifications) == 0 && |notifications| == |old(notifications)|
      ensures filter == old(filter)
    {
      notifications := AllMarkedAsRead(notifications);
    }

    /** `handleDelete`: exactly the notifications with that id go, the rest keep their order. */
    method Delete(id: int)
      modifies this
      ensures notifications == Lists.RemoveKey(old(notifications), NotifId, id)
      ensures forall n :: n in notifications <==> n in old(notifications) && n.id != id
      ensures Lists.IsSubsequence(notifications, old(notifications))
      ensures filter == old(filter)
    {
      Lists.RemoveKeyExact(notifications, NotifId, id);
      notifications := Lists.RemoveKey(notifications, NotifId, id);
    }

    /** `handleSendNotification`: one new unread notification in front. */
    method Send(title: string, message: string, kind: Option<string>, priority: Option<string>,
                id: int, now: int)
      modifies this
      ensures notifications == [NewNotification(title, message, kind, priority, id, now)] + old(notifications)
      ensures UnreadCount(notifications) == UnreadCount(old(notifications)) + 1
      ensures filter == old(filter)
    {
      var n := NewNotification(title, message, kind, priority, id, now);
      SendAddsOneUnread(notifications, n);
      notifications := [n] + notifications;
    }
  }

  /** Marking one notification read never raises the unread count. */
  lemma {:induction false} UnreadNeverGrows(ns: seq<Notification>, id: int)
    ensures UnreadCount(MarkedAsRead(ns, id)) <= UnreadCount(ns)
    decreases |ns|
  {
    if ns != [] {
      var r := MarkedAsRead(ns, id);
      UnreadNeverGrows(ns[1..], id);
      assert r[1..] == MarkedAsRead(ns[1..], id);
    }
  }
}

/**
 * The notification bell of the top bar (src/components/layout/Header.tsx):
 * a list of notifications, the unread badge, and marking notifications read.
 */
module Header {
  import Lists

  datatype Notification = Notification(id: int, title: string, time: string, read: bool)

  /** The three notifications the bell starts with, all unread. */
  const InitialNotifications: seq<Notification> := [
    Notification(1, "New appointment scheduled", "5 min ago", false),
    Notification(2, "Lab results available", "1 hour ago", false),
    Notification(3, "System maintenance tonight", "2 hours ago", false)
  ]

  /** `unreadCount`: how many notifications are not read. */
  function UnreadCount(ns: seq<Notification>): nat
  {
    Lists.Count(ns, (n: Notification) => !n.read)
  }

  /** The badge on the bell is rendered only while something is unread. */
  predicate ShowsBadge(ns: seq<Notification>)
  {
    UnreadCount(ns) > 0
  }

  /** `handleNotificationClick(id)`: the notifications with that id become read. */
  function MarkRead(ns: seq<Notification>, id: int): seq<Notification>
  {
    Lists.Map(ns, (n: Notification) => if n.id == id then n.(read := true) else n)
  }

  /** `handleViewAllNotifications`: every notification becomes read. */
  function MarkAllRead(ns: seq<Notification>): seq<Notification>
  {
    Lists.Map(ns, (n: Notification) => n.(read := true))
  }

  /** What a notification shows apart from its read flag. */
  function Content(ns: seq<Notification>): (r: seq<(int, string, string)>)
    ensures |r| == |ns|
    ensures forall i :: 0 <= i < |ns| ==> r[i] == (ns[i].id, ns[i].title, ns[i].time)
  {
    Lists.Map(ns, (n: Notification) => (n.id, n.title, n.time))
  }

  /** The bell starts with a badge of 3. */
  lemma InitiallyThreeUnread()
    ensures UnreadCount(InitialNotifications) == 3 && ShowsBadge(InitialNotifications)
  {
  }

  /**
   * Clicking a notification marks exactly the ones with its id, so the unread
   * count drops by the number of unread notifications with that id.
   */
  lemma MarkReadCount(ns: seq<Notification>, id: int)
    ensures UnreadCount(MarkRead(ns, id)) + Lists.Count(ns, (n: Notification) => n.id == id && !n.read) == UnreadCount(ns)
    ensures UnreadCount(MarkRead(ns, id)) <= UnreadCount(ns)
  {
    var f := (n: Notification) => if n.id == id then n.(read := true) else n;
    var unread := (n: Notification) => !n.read;
    var other := (n: Notification) => n.id != id && !n.read;
    Lists.CountMap(ns, f, unread, other);
    SplitCount(ns, id);
  }

  /** The unread notifications split into those with `id` and the others. */
  lemma {:induction false} SplitCount(ns: seq<Notification>, id: int)
    ensures Lists.Count(ns, (n: Notification) => n.id != id && !n.read)
            + Lists.Count(ns, (n: Notification) => n.id == id && !n.read)
            == UnreadCount(ns)
  {
    if ns != [] {
      SplitCount(ns[1..], id);
    }
  }

  /** Clicking the same notification twice is the same as clicking it once. */
  lemma MarkReadIdempotent(ns: seq<Notification>, id: int)
    ensures MarkRead(MarkRead(ns, id), id) == MarkRead(ns, id)
  {
    var f := (n: Notification) => if n.id == id then n.(read := true) else n;
    Lists.MapIdempotent(ns, f);
  }

  /** "View all" leaves nothing unread, and the badge disappears. */
  lemma MarkAllReadClears(ns: seq<Notification>)
    ensures UnreadCount(MarkAllRead(ns)) == 0 && !ShowsBadge(MarkAllRead(ns))
  {
    Lists.CountMap(ns, (n: Notification) => n.(read := true), (n: Notification) => !n.read, (n: Notification) => false);
    Lists.FilterNone(ns, (n: Notification) => false);
  }

  /** Marking read changes no id, title or time, and keeps the order. */
  lemma MarkingKeepsContent(ns: seq<Notification>, id: int)
    ensures Content(MarkRead(ns, id)) == Content(ns)
    ensures Content(MarkAllRead(ns)) == Content(ns)
  {
    assert forall i :: 0 <= i < |ns| ==> Content(MarkRead(ns, id))[i] == Content(ns)[i];
    assert forall i :: 0 <= i < |ns| ==> Content(MarkAllRead(ns))[i] == Content(ns)[i];
  }

  /** The bell's state and its two handlers. */
  class Bell {
    var notifications: seq<Notification>

    constructor()
      ensures notifications == InitialNotifications
    {
      notifications := InitialNotifications;
    }

    function Unread(): nat
      reads this
    {
      UnreadCount(notifications)
    }

    /** `handleNotificationClick(id)`. */
    method Click(id: int)
      modifies this
      ensures notifications == MarkRead(old(notifications), id)
    {
      notifications := MarkRead(notifications, id);
    }

    /** `handleViewAllNotifications`. */
    method ViewAll()
      modifies this
      ensures notifications == MarkAllRead(old(notifications))
    {
      notifications := MarkAllRead(notifications);
    }
  }

  /** Reading the first notification leaves two unread; "View all" then clears the badge. */
  method ReadOneThenAll() returns (afterOne: nat, afterAll: nat, badge: bool)
    ensures afterOne == 2 && afterAll == 0 && !badge
  {
    var bell := new Bell();
    bell.Click(1);
    MarkReadCount(InitialNotifications, 1);
    afterOne := bell.Unread();
    bell.ViewAll();
    MarkAllReadClears(bell.notifications);
    afterAll := bell.Unread();
    badge := ShowsBadge(bell.notifications);
  }
}

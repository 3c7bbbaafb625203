/**
 * The notification bell: the signed-in user's notifications, a badge with
 * the number still unread, and click-to-mark-read on unread entries. Without
 * a session the bell fetches nothing and renders nothing.
 */
module NotificationBell {
  import Seqs

  datatype Notification = Notification(id: string, message: string, read: bool, createdAt: string)

  predicate IsUnread(n: Notification)
  {
    !n.read
  }

  /** `notifications.filter(n => !n.read).length`, counted from the end. */
  function UnreadCount(ns: seq<Notification>): (n: nat)
    ensures n <= |ns|
  {
    if ns == [] then 0
    else UnreadCount(ns[..|ns| - 1]) + (if ns[|ns| - 1].read then 0 else 1)
  }

  /** The badge counts exactly the unread entries, whichever end the count starts from. */
  lemma {:induction false} UnreadCountCountsUnread(ns: seq<Notification>)
    ensures UnreadCount(ns) == Seqs.CountIf(ns, IsUnread)
  {
    if ns != [] {
      var init, last := ns[..|ns| - 1], ns[|ns| - 1];
      UnreadCountCountsUnread(init);
      Seqs.CountSnoc(init, last, IsUnread);
      assert init + [last] == ns;
    }
  }

  /** How many entries carry a given id and are unread. */
  function UnreadWithId(ns: seq<Notification>, id: string): (n: nat)
    ensures n <= UnreadCount(ns)
  {
    if ns == [] then 0
    else UnreadWithId(ns[..|ns| - 1], id) + (if !ns[|ns| - 1].read && ns[|ns| - 1].id == id then 1 else 0)
  }

  /** The list after a successful PATCH: entries with that id become read, nothing else changes. */
  function MarkRead(ns: seq<Notification>, id: string): (r: seq<Notification>)
    ensures |r| == |ns|
    ensures forall i :: 0 <= i < |ns| ==>
      && r[i] == ns[i].(read := r[i].read)
      && r[i].read == (ns[i].read || ns[i].id == id)
  {
    seq(|ns|, i requires 0 <= i < |ns| => if ns[i].id == id then ns[i].(read := true) else ns[i])
  }

  /** Marking an id read lowers the unread count by exactly the unread entries with that id. */
  lemma {:induction false} MarkReadCount(ns: seq<Notification>, id: string)
    ensures UnreadCount(MarkRead(ns, id)) == UnreadCount(ns) - UnreadWithId(ns, id)
  {
    if ns != [] {
      var init := ns[..|ns| - 1];
      MarkReadCount(init, id);
      assert MarkRead(ns, id)[..|ns| - 1] == MarkRead(init, id);
    }
  }

  /** Marking read never raises the unread count, and marking the same id again changes nothing. */
  lemma MarkReadSettles(ns: seq<Notification>, id: string)
    ensures UnreadCount(MarkRead(ns, id)) <= UnreadCount(ns)
    ensures MarkRead(MarkRead(ns, id), id) == MarkRead(ns, id)
  {
    MarkReadCount(ns, id);
  }

  /** An id among the unread entries takes at least one off the count. */
  lemma {:induction false} MarkUnreadLowersCount(ns: seq<Notification>, k: nat)
    requires k < |ns| && !ns[k].read
    ensures UnreadCount(MarkRead(ns, ns[k].id)) < UnreadCount(ns)
  {
    MarkReadCount(ns, ns[k].id);
    UnreadWithIdPositive(ns, k);
  }

  lemma {:induction false} UnreadWithIdPositive(ns: seq<Notification>, k: nat)
    requires k < |ns| && !ns[k].read
    ensures UnreadWithId(ns, ns[k].id) > 0
  {
    if k < |ns| - 1 {
      UnreadWithIdPositive(ns[..|ns| - 1], k);
    }
  }

  class Bell {
    const signedIn: bool
    var notifications: seq<Notification>
    var isOpen: bool

    constructor (signedIn: bool)
      ensures this.signedIn == signedIn && notifications == [] && !isOpen
    {
      this.signedIn := signedIn;
      notifications := [];
      isOpen := false;
    }

    /** The bell renders only with a session. */
    function Renders(): (b: bool)
      reads this
      ensures b <==> this.signedIn
    {
      signedIn
    }

    /** `fetchNotifications`: nothing without a session; an ok response replaces the list. */
    method Fetch(ok: bool, data: seq<Notification>)
      modifies this`notifications
      ensures notifications == (if signedIn && ok then data else old(notifications))
    {
      if !signedIn {
        return;
      }
      if ok {
        notifications := data;
      }
    }

    /** `handleMarkAsRead`, given whether the PATCH response was ok. */
    method MarkAsRead(id: string, ok: bool)
      modifies this`notifications
      ensures notifications == (if ok then MarkRead(old(notifications), id) else old(notifications))
    {
      if ok {
        notifications := MarkRead(notifications, id);
      }
    }

    /** A click on an entry: only an unread entry sends the request. */
    method Click(n: Notification, ok: bool)
      modifies this`notifications
      ensures notifications == (if !n.read && ok then MarkRead(old(notifications), n.id) else old(notifications))
    {
      if !n.read {
        MarkAsRead(n.id, ok);
      }
    }

    /** The bell button toggles the dropdown. */
    method Toggle()
      modifies this`isOpen
      ensures isOpen == !old(isOpen)
    {
      isOpen := !isOpen;
    }
  }
}

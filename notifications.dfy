/**
 * nueva-funcionalidad.js: a list of notifications that never grows past
 * 100: adding to a full list first cuts it to its last 50.
 */
module Notifications {
  import opened Wrappers
  import opened Seqs
  import opened Strings

  const MaxNotifications: nat := 100
  const KeptOnOverflow: nat := 50

  /** `id` and `timestamp` come from the clock and are parameters here. */
  datatype Notification = Notification(id: int, message: string, kind: string, timestamp: int, read: bool)

  datatype NotificationError = EmptyMessage

  /** The list `addNotification` leaves: cut to the last 50 when it holds 100 or more, then `n` appended. */
  function Appended(ns: seq<Notification>, n: Notification): seq<Notification>
  {
    (if |ns| >= MaxNotifications then LastN(ns, KeptOnOverflow) else ns) + [n]
  }

  /** Adding never takes the list past 100; the new notification is last, after the ones kept, in order. */
  lemma {:induction false} AppendedBounded(ns: seq<Notification>, n: Notification)
    requires |ns| <= MaxNotifications
    ensures var r := Appended(ns, n);
      && |r| <= MaxNotifications && r[|r| - 1] == n
      && (|ns| < MaxNotifications ==> r == ns + [n])
      && (|ns| >= MaxNotifications ==> |r| == KeptOnOverflow + 1 && r[..KeptOnOverflow] == ns[|ns| - KeptOnOverflow..])
  {
  }

  /** `markAsRead`: the first notification with that id is read; nothing else changes. */
  function MarkedRead(ns: seq<Notification>, id: int): seq<Notification>
  {
    var i := FindIndex(ns, (n: Notification) => n.id == id);
    if i < |ns| then ns[i := ns[i].(read := true)] else ns
  }

  /** Only the first notification with the id changes, and only its flag; an unknown id changes nothing. */
  lemma {:induction false} MarkedReadOnlyFirst(ns: seq<Notification>, id: int)
    ensures |MarkedRead(ns, id)| == |ns|
    ensures (forall i :: 0 <= i < |ns| ==> ns[i].id != id) ==> MarkedRead(ns, id) == ns
    ensures forall i :: 0 <= i < |ns| && ns[i].id == id && (forall j :: 0 <= j < i ==> ns[j].id != id) ==>
      MarkedRead(ns, id) == ns[i := ns[i].(read := true)]
  {
    var k := FindIndex(ns, (n: Notification) => n.id == id);
    forall i | 0 <= i < |ns| && ns[i].id == id && (forall j :: 0 <= j < i ==> ns[j].id != id)
      ensures MarkedRead(ns, id) == ns[i := ns[i].(read := true)]
    {
      assert k == i;
    }
  }

  predicate Unread(n: Notification) { !n.read }

  /** Marking as read lowers the unread count by one exactly when the first match was unread. */
  lemma {:induction false} MarkedReadCount(ns: seq<Notification>, id: int)
    ensures var i := FindIndex(ns, (n: Notification) => n.id == id);
      Count(MarkedRead(ns, id), Unread) == Count(ns, Unread) - (if i < |ns| && !ns[i].read then 1 else 0)
  {
    var i := FindIndex(ns, (n: Notification) => n.id == id);
    if i < |ns| {
      CountUpdate(ns, i, ns[i].(read := true), Unread);
    }
  }

  /** `clearOldNotifications` keeps exactly the notifications newer than the cutoff, in order. */
  lemma {:induction false} ClearOldKeeps(ns: seq<Notification>, cutoff: int)
    ensures var r := Filter(ns, (n: Notification) => n.timestamp > cutoff);
      forall n :: n in r <==> n in ns && n.timestamp > cutoff
  {
    FilterMembers(ns, (n: Notification) => n.timestamp > cutoff);
  }

  class NotificationService {
    var notifications: seq<Notification>

    ghost predicate Valid()
      reads this
    {
      |notifications| <= MaxNotifications
    }

    constructor()
      ensures Valid() && notifications == []
    {
      notifications := [];
    }

    /** `addNotification`, with the id and the clock as parameters; an omitted type is `"info"`. */
    method AddNotification(message: string, kind: string := "info", id: int, now: int) returns (r: Result<Notification, NotificationError>)
      requires Valid()
      modifies this
      ensures Valid()
      ensures r.Err? <==> Trim(message) == ""
      ensures r.Err? ==> notifications == old(notifications)
      ensures r.Ok? ==> (r.value == Notification(id, Trim(message), kind, now, false)
        && notifications == Appended(old(notifications), r.value))
    {
      if Trim(message) == "" {
        return Err(EmptyMessage);
      }
      if |notifications| >= MaxNotifications {
        notifications := LastN(notifications, KeptOnOverflow);
      }
      var n := Notification(id, Trim(message), kind, now, false);
      notifications := notifications + [n];
      return Ok(n);
    }

    method MarkAsRead(id: int)
      requires Valid()
      modifies this
      ensures Valid()
      ensures notifications == MarkedRead(old(notifications), id)
    {
      var i := 0;
      while i < |notifications|
        invariant 0 <= i <= |notifications|
        invariant forall j :: 0 <= j < i ==> notifications[j].id != id
      {
        if notifications[i].id == id {
          assert FindIndex(notifications, (n: Notification) => n.id == id) == i;
          notifications := notifications[i := notifications[i].(read := true)];
          return;
        }
        i := i + 1;
      }
    }

    function GetUnreadCount(): (c: nat)
      reads this
      ensures c <= |notifications|
    {
      Count(notifications, Unread)
    }

    method ClearAll()
      modifies this
      ensures Valid() && notifications == []
    {
      notifications := [];
    }

    /** `clearOldNotifications`, with the cutoff date as a parameter. */
    method ClearOldNotifications(cutoff: int)
      requires Valid()
      modifies this
      ensures Valid()
      ensures notifications == Filter(old(notifications), (n: Notification) => n.timestamp > cutoff)
    {
      notifications := Filter(notifications, (n: Notification) => n.timestamp > cutoff);
    }
  }
}

/** The toast queue (contexts/NotificationContext.tsx). A toast's id is the
    ISO time of its creation, passed in as `stamp`, so two toasts raised in the
    same millisecond share an id. */
module Notifications {
  import opened Types
  import opened Lists

  function IdIsNot(id: string): Notification -> bool {
    (n: Notification) => n.id != id
  }

  /** The queue without the toasts carrying `id`. */
  function WithoutId(ns: seq<Notification>, id: string): (r: seq<Notification>)
    ensures forall n :: n in r <==> n in ns && n.id != id
  {
    Filter(IdIsNot(id), ns)
  }

  /** Removing an id nobody carries leaves the queue as it was. */
  lemma RemoveAbsentUnchanged(ns: seq<Notification>, id: string)
    requires forall n :: n in ns ==> n.id != id
    ensures WithoutId(ns, id) == ns
  {
    FilterAll(IdIsNot(id), ns);
  }

  /** Removal keeps the other toasts in order: it works piecewise on a queue laid end to end. */
  lemma RemoveKeepsOrder(a: seq<Notification>, b: seq<Notification>, id: string)
    ensures WithoutId(a + b, id) == WithoutId(a, id) + WithoutId(b, id)
  {
    FilterAppend(IdIsNot(id), a, b);
  }

  /** Adding a toast with a fresh id and then closing it gives back the queue. */
  lemma AddThenRemoveRestores(ns: seq<Notification>, n: Notification)
    requires forall m :: m in ns ==> m.id != n.id
    ensures WithoutId(ns + [n], n.id) == ns
  {
    RemoveKeepsOrder(ns, [n], n.id);
    RemoveAbsentUnchanged(ns, n.id);
    assert WithoutId([n], n.id) == [];
  }

  class NotificationQueue {
    var notifications: seq<Notification>

    constructor ()
      ensures notifications == []
    {
      notifications := [];
    }

    /** `addNotification`: one toast at the end, stamped with the current time. */
    method Add(kind: NotificationType, message: string, stamp: string)
      modifies this
      ensures notifications == old(notifications) + [Notification(stamp, kind, message)]
    {
      notifications := notifications + [Notification(stamp, kind, message)];
    }

    /** `removeNotification`: drops every toast carrying the id. */
    method Remove(id: string)
      modifies this
      ensures notifications == WithoutId(old(notifications), id)
    {
      notifications := WithoutId(notifications, id);
    }
  }
}

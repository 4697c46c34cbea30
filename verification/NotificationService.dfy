/** The notification service as it keeps its state (services/notification-service/cmd/main.go, lines 40-124 and
    200-280). Each method is proved to do what Notifications says. Deliver has the intended effect of MoveToDLQ,
    without the lock that it would take a second time; DeliverAsWritten takes every lock the code takes. */
module NotificationServices {
  import opened Counting
  import opened Notifications
  import opened Windows

  class NotificationRecord {
    const id: string
    const maxAttempts: int
    var status: Status
    var attempts: int

    constructor (id: string)
      ensures this.id == id && View() == Notification(Pending, 0, MAX_ATTEMPTS)
    {
      this.id, maxAttempts := id, MAX_ATTEMPTS;
      status, attempts := Pending, 0;
    }

    function View(): Notification
      reads this
    {
      Notification(status, attempts, maxAttempts)
    }
  }

  function Ids(rs: seq<NotificationRecord>): seq<string> {
    seq(|rs|, i requires 0 <= i < |rs| => rs[i].id)
  }

  class NotificationService {
    var notifications: map<string, NotificationRecord>
    var dlq: seq<NotificationRecord>
    /** Whether the store's mutex is held. */
    var locked: bool

    constructor ()
      ensures Valid() && View() == EMPTY && !locked
    {
      notifications, dlq, locked := map[], [], false;
    }

    ghost predicate Valid()
      reads this
    {
      forall id | id in notifications :: notifications[id].id == id
    }

    ghost function Stored(): map<string, Notification>
      reads this`notifications, notifications.Values
    {
      map id | id in notifications :: notifications[id].View()
    }

    ghost function View(): Store
      reads this, notifications.Values
    {
      Store(Stored(), Ids(dlq))
    }

    method Create(id: string)
      requires Valid()
      modifies this`notifications
      ensures Valid() && View() == Notifications.Create(old(View()), id)
      ensures notifications.Keys == old(notifications).Keys + {id}
      ensures fresh(notifications.Values - old(notifications.Values))
    {
      var n := new NotificationRecord(id);
      notifications := notifications[id := n];
      assert Stored() == old(Stored())[id := n.View()];
    }

    method MoveToDLQ(n: NotificationRecord)
      requires Valid() && n.id in notifications && notifications[n.id] == n
      modifies this`dlq, n`status
      ensures Ids(dlq) == Last(old(Ids(dlq)) + [n.id], MAX_DLQ)
      ensures n.status == Dead
    {
      n.status := Dead;
      dlq := dlq + [n];
      if |dlq| > MAX_DLQ {
        dlq := dlq[|dlq| - MAX_DLQ..];
      }
    }

    /** deliver, with the provider's answer. */
    method Deliver(id: string, ok: bool)
      requires Valid()
      modifies this`dlq, notifications.Values
      ensures Valid()
      ensures View() == Notifications.Deliver(old(View()), id, ok)
    {
      if id !in notifications {
        return;
      }
      ghost var was := View();
      var n := notifications[id];
      n.attempts := n.attempts + 1;
      if ok {
        n.status := Sent;
      } else if n.attempts >= n.maxAttempts {
        MoveToDLQ(n);
      } else {
        n.status := Retrying;
      }
      assert n.View() == Delivered(was.notifications[id], ok);
      assert Stored() == was.notifications[id := n.View()];
    }

    /** False stands for waiting for ever. */
    method Lock() returns (ok: bool)
      modifies this`locked
      ensures locked && ok == !old(locked)
    {
      ok := !locked;
      locked := true;
    }

    method MoveToDLQAsWritten(n: NotificationRecord) returns (ran: bool)
      requires Valid() && n.id in notifications && notifications[n.id] == n
      modifies this`dlq, this`locked, n`status
      ensures ran == !old(locked)
      ensures ran ==> !locked && Ids(dlq) == Last(old(Ids(dlq)) + [n.id], MAX_DLQ) && n.status == Dead
    {
      ran := Lock();
      if ran {
        MoveToDLQ(n);
        locked := false;
      }
    }

    /** deliver with the locks that it takes: Update's, and inside it MoveToDLQ's. */
    method DeliverAsWritten(id: string, ok: bool) returns (ran: bool)
      requires Valid()
      modifies this`dlq, this`locked, notifications.Values
      ensures Valid()
      ensures Notifications.DeliverAsWritten(Locked(old(View()), old(locked)), id, ok)
           == if ran then Finished(Locked(View(), locked)) else Deadlocked
    {
      ghost var was := View();
      DeadlocksExactlyOnLastFailure(was, id, ok);
      ran := Lock();
      if !ran {
        assert Notifications.DeliverAsWritten(Locked(was, true), id, ok) == Deadlocked;
        return;
      }
      hide Notifications.DeliverAsWritten;
      if id in notifications {
        var n := notifications[id];
        n.attempts := n.attempts + 1;
        if ok {
          n.status := Sent;
        } else if n.attempts >= n.maxAttempts {
          ran := MoveToDLQAsWritten(n);
          if !ran {
            assert Kills(was, DeliverOp(id, ok));
            return;
          }
        } else {
          n.status := Retrying;
        }
        assert n.View() == Delivered(was.notifications[id], ok);
        assert Stored() == was.notifications[id := n.View()];
      }
      locked := false;
      assert View() == Notifications.Deliver(was, id, ok);
      assert !Kills(was, DeliverOp(id, ok));
    }

    method Send(id: string, ok: bool)
      requires Valid()
      modifies this, notifications.Values
      ensures Valid()
      ensures View() == Notifications.Send(old(View()), id, ok)
    {
      Create(id);
      Deliver(id, ok);
    }

    /** The ids of the pending notifications, once each, in some order. */
    method GetPending() returns (out: seq<string>)
      requires Valid()
      ensures IsSnapshot(View(), out)
    {
      out := [];
      var rest := notifications.Keys;
      while rest != {}
        invariant rest <= notifications.Keys
        invariant NoDuplicates(out)
        invariant forall id :: id in out <==> id in notifications && IsPending(notifications[id].View()) && id !in rest
        decreases rest
      {
        var id :| id in rest;
        rest := rest - {id};
        if notifications[id].status == Pending || notifications[id].status == Retrying {
          out := out + [id];
        }
      }
    }

    /** processPending; `up` gives the provider's answer for each notification. */
    method ProcessPending(up: string -> bool) returns (ghost order: seq<string>)
      requires Valid()
      modifies this`dlq, notifications.Values
      ensures Valid()
      ensures IsSnapshot(old(View()), order)
      ensures View() == Round(old(View()), order, up)
    {
      ghost var was := View();
      var pending := GetPending();
      order := pending;
      assert pending[..0] == [];
      hide IsSnapshot, View;
      for i := 0 to |pending|
        invariant Valid() && View() == Round(was, pending[..i], up)
      {
        Deliver(pending[i], up(pending[i]));
        assert pending[..i + 1][..i] == pending[..i];
      }
      assert pending[..|pending|] == pending;
    }
  }
}

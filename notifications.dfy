/** The "NOTIFICATION PART" shared by the like, follow and comment
    handlers: create a notification row for the target user, then set the
    target's `hasNotification`. Both writes sit in a try block whose catch
    only logs, so a throw leaves whatever was already written and never
    reaches the handler. */
module Notifications {
  import opened Common
  import opened Entities
  import opened Store

  /** The store after the best-effort block. The flag update throws when no
      user has the target id, exactly as when it fails for another reason. */
  function Notify(t: Tables, target: Id, body: string, now: int, fault: Fault): (r: Tables)
    ensures r.posts == t.posts && r.comments == t.comments
    ensures SameKeys(t.users, r.users)
  {
    if fault == FailsBeforeCreate then t
    else
      var created := AddNotification(t, Notification(body, target, now));
      match FindUser(created.users, target)
      case None => created
      case Some(k) =>
        if fault == FailsAfterCreate then created else SetHasNotification(created, k)
  }

  /** Without a fault and with the target stored, exactly one notification
      with the given body is added for the target, and the target's flag,
      and nothing else about any user, changes. */
  lemma NotifyDelivers(t: Tables, k: nat, body: string, now: int)
    requires DistinctUserIds(t.users) && k < |t.users|
    ensures Notify(t, t.users[k].id, body, now, NoFault).notifications ==
      t.notifications + [Notification(body, t.users[k].id, now)]
    ensures Notify(t, t.users[k].id, body, now, NoFault).users ==
      t.users[k := t.users[k].(hasNotification := true)]
  {
    FindUserOwnId(t.users, k);
  }

  /** A failing block changes no user, and one that fails before the create
      changes nothing at all; one that fails after it leaves the row. */
  lemma NotifyFaultSwallowed(t: Tables, target: Id, body: string, now: int, fault: Fault)
    requires fault != NoFault
    ensures Notify(t, target, body, now, fault).users == t.users
    ensures fault == FailsBeforeCreate ==> Notify(t, target, body, now, fault) == t
    ensures fault == FailsAfterCreate ==>
      Notify(t, target, body, now, fault).notifications == t.notifications + [Notification(body, target, now)]
  {
  }

  /** A target that is not a stored user still gets its row (the create
      comes first), but no flag is set anywhere. */
  lemma NotifyUnknownTarget(t: Tables, target: Id, body: string, now: int, fault: Fault)
    requires forall j :: 0 <= j < |t.users| ==> t.users[j].id != target
    ensures Notify(t, target, body, now, fault).users == t.users
    ensures fault != FailsBeforeCreate ==>
      Notify(t, target, body, now, fault).notifications == t.notifications + [Notification(body, target, now)]
  {
  }

  /** Whatever happens, a user record can only gain `hasNotification = true`. */
  lemma NotifyOnlyRaisesFlags(t: Tables, target: Id, body: string, now: int, fault: Fault, j: nat)
    requires j < |t.users|
    ensures var u := Notify(t, target, body, now, fault).users[j];
      u == t.users[j] || u == t.users[j].(hasNotification := true)
  {
  }

  /** The block run against the database. */
  method NotifyBestEffort(db: Database, target: Id, body: string, now: int, fault: Fault)
    requires db.Valid()
    modifies db
    ensures db.Valid()
    ensures db.Snapshot() == Notify(old(db.Snapshot()), target, body, now, fault)
  {
    if fault == FailsBeforeCreate {
      return;
    }
    db.CreateNotification(Notification(body, target, now));
    if FindUser(db.users, target).None? || fault == FailsAfterCreate {
      return;
    }
    db.RaiseNotificationFlag(target);
  }
}

/** `POST /api/follow` and `DELETE /api/follow`: the signed-in user follows
    or unfollows another user, recorded only in the actor's own
    `followingIds`; a follow notifies the followed user. */
module FollowApi {
  import opened Common
  import opened Entities
  import opened IdLists
  import opened ServerAuth
  import opened Store
  import opened Notifications

  const FollowedMessage: string := "Someone followed you!"

  /** The store after the request and the reply. The new list is computed
      from the actor's record as read at sign-in; the notification is sent
      before it is written back, and the write touches `followingIds` only.
      Neither a duplicate nor a self-follow is refused. */
  function Respond(t: Tables, verb: string, sessionEmail: Option<string>, userId: Arg,
                   fault: Fault, now: int): (r: (Tables, Reply<User>))
    ensures r.1 == MethodNotAllowed <==> verb != POST && verb != DELETE
    ensures !r.1.Ok? ==> r.0 == t
    ensures SameKeys(t.users, r.0.users)
    ensures r.0.posts == t.posts && r.0.comments == t.comments
    ensures r.1.Ok? ==> r.1.body in r.0.users
  {
    if verb != POST && verb != DELETE then (t, MethodNotAllowed)
    else
      var auth := Authenticate(t.users, sessionEmail);
      if auth.Failed? || !IsId(userId) || FindUser(t.users, userId.s).None? then (t, BadRequest)
      else
        var currentUser := auth.currentUser;
        var notified :=
          if verb == POST then Notify(t, userId.s, FollowedMessage, now, fault) else t;
        var followingIds := UpdatedIds(verb, currentUser.followingIds, userId.s);
        SameKeysFindUser(t.users, notified.users, currentUser.id);
        assert FindUser(t.users, currentUser.id).Some?;
        var k := FindUser(notified.users, currentUser.id).value;
        var updated := SetFollowingIds(notified, k, followingIds);
        (updated, Ok(updated.users[k]))
  }

  /** The handler, step by step against the database. */
  method Handler(db: Database, verb: string, sessionEmail: Option<string>, userId: Arg,
                 fault: Fault, now: int) returns (reply: Reply<User>)
    requires db.Valid()
    modifies db
    ensures db.Valid()
    ensures (db.Snapshot(), reply) == Respond(old(db.Snapshot()), verb, sessionEmail, userId, fault, now)
  {
    if verb != POST && verb != DELETE {
      return MethodNotAllowed;
    }
    var auth := Authenticate(db.users, sessionEmail);
    if auth.Failed? {
      return BadRequest;
    }
    var currentUser := auth.currentUser;
    if !IsId(userId) {
      return BadRequest;
    }
    if FindUser(db.users, userId.s).None? {
      return BadRequest;
    }
    ghost var before := db.users;
    assert FindUser(before, currentUser.id).Some?;
    var updatedFollowingIds := currentUser.followingIds;
    if verb == POST {
      updatedFollowingIds := updatedFollowingIds + [userId.s];
      NotifyBestEffort(db, userId.s, FollowedMessage, now, fault);
    }
    if verb == DELETE {
      updatedFollowingIds := Without(updatedFollowingIds, userId.s);
    }
    SameKeysFindUser(before, db.users, currentUser.id);
    var updatedUser := db.UpdateFollowingIds(currentUser.id, updatedFollowingIds);
    return Ok(updatedUser);
  }

  /** A method other than POST or DELETE gets 405; a failed sign-in, a
      missing, empty or non-string `userId`, or an unknown user gets 400;
      neither changes the store. */
  lemma FollowRejects(t: Tables, verb: string, sessionEmail: Option<string>, userId: Arg, fault: Fault, now: int)
    ensures var (t', r) := Respond(t, verb, sessionEmail, userId, fault, now);
      && (verb != POST && verb != DELETE ==> r == MethodNotAllowed)
      && ((verb == POST || verb == DELETE) ==>
            (r == BadRequest <==>
               Authenticate(t.users, sessionEmail).Failed? || !IsId(userId) || FindUser(t.users, userId.s).None?))
      && (!r.Ok? ==> t' == t)
  {
  }

  /** Two user records that differ at most in `followingIds` and `hasNotification`. */
  predicate SameProfile(a: User, b: User) {
    && a.id == b.id && a.email == b.email && a.name == b.name && a.username == b.username
    && a.bio == b.bio && a.profileImage == b.profileImage && a.coverImage == b.coverImage
  }

  /** A follow appends the target's id to the actor's `followingIds` (no
      duplicate check). No other user's list changes, the target's
      included; users change in nothing but that list and notification
      flags; posts and comments are untouched; the reply is the actor's
      updated record. */
  lemma FollowAppends(t: Tables, sessionEmail: Option<string>, a: nat, m: nat, fault: Fault, now: int)
    requires DistinctUserIds(t.users) && a < |t.users| && m < |t.users| && t.users[m].id != ""
    requires Authenticate(t.users, sessionEmail) == SignedIn(t.users[a])
    ensures var (t', r) := Respond(t, POST, sessionEmail, Str(t.users[m].id), fault, now);
      && t'.posts == t.posts && t'.comments == t.comments
      && |t'.users| == |t.users|
      && t'.users[a].followingIds == t.users[a].followingIds + [t.users[m].id]
      && (forall j :: 0 <= j < |t.users| && j != a ==> t'.users[j].followingIds == t.users[j].followingIds)
      && (forall j :: 0 <= j < |t.users| ==> SameProfile(t'.users[j], t.users[j]))
      && r == Ok(t'.users[a])
  {
    FindUserOwnId(t.users, a);
    var notified := Notify(t, t.users[m].id, FollowedMessage, now, fault);
    SameKeysFindUser(t.users, notified.users, t.users[a].id);
    NotifyKeepsProfiles(t, t.users[m].id, now, fault);
    var updated := SetFollowingIds(notified, a, t.users[a].followingIds + [t.users[m].id]);
    assert Respond(t, POST, sessionEmail, Str(t.users[m].id), fault, now) == (updated, Ok(updated.users[a]));
  }

  /** The follow notification leaves every user's `followingIds` and
      profile as they were. */
  lemma NotifyKeepsProfiles(t: Tables, target: Id, now: int, fault: Fault)
    ensures var n := Notify(t, target, FollowedMessage, now, fault);
      forall j :: 0 <= j < |t.users| ==>
        n.users[j].followingIds == t.users[j].followingIds && SameProfile(n.users[j], t.users[j])
  {
    forall j | 0 <= j < |t.users|
      ensures Notify(t, target, FollowedMessage, now, fault).users[j].followingIds == t.users[j].followingIds
      ensures SameProfile(Notify(t, target, FollowedMessage, now, fault).users[j], t.users[j])
    {
      NotifyOnlyRaisesFlags(t, target, FollowedMessage, now, fault, j);
    }
  }

  /** A follow adds one "Someone followed you!" notification for the target
      and raises the target's flag and no other. */
  lemma FollowNotifiesTarget(t: Tables, sessionEmail: Option<string>, a: nat, m: nat, now: int)
    requires DistinctUserIds(t.users) && a < |t.users| && m < |t.users| && t.users[m].id != ""
    requires Authenticate(t.users, sessionEmail) == SignedIn(t.users[a])
    ensures var t' := Respond(t, POST, sessionEmail, Str(t.users[m].id), NoFault, now).0;
      && t'.notifications == t.notifications + [Notification(FollowedMessage, t.users[m].id, now)]
      && |t'.users| == |t.users|
      && (forall j :: 0 <= j < |t.users| ==>
            t'.users[j].hasNotification == (j == m || t.users[j].hasNotification))
  {
    FindUserOwnId(t.users, a);
    FindUserOwnId(t.users, m);
    NotifyDelivers(t, m, FollowedMessage, now);
    var notified := Notify(t, t.users[m].id, FollowedMessage, now, NoFault);
    SameKeysFindUser(t.users, notified.users, t.users[a].id);
  }

  /** An unfollow removes every occurrence of the target's id from the
      actor's `followingIds` (a no-op when absent) and changes nothing else. */
  lemma UnfollowRemoves(t: Tables, sessionEmail: Option<string>, a: nat, m: nat, fault: Fault, now: int)
    requires DistinctUserIds(t.users) && a < |t.users| && m < |t.users| && t.users[m].id != ""
    requires Authenticate(t.users, sessionEmail) == SignedIn(t.users[a])
    ensures var (t', r) := Respond(t, DELETE, sessionEmail, Str(t.users[m].id), fault, now);
      && t' == t.(users := t.users[a := t.users[a].(followingIds := Without(t.users[a].followingIds, t.users[m].id))])
      && t.users[m].id !in t'.users[a].followingIds
      && r == Ok(t'.users[a])
  {
    FindUserOwnId(t.users, a);
  }

  /** A failure in the notification block changes neither whether the
      request succeeds nor any user's `followingIds`. */
  lemma FollowIgnoresNotifyFault(t: Tables, verb: string, sessionEmail: Option<string>, userId: Arg,
                                 fault: Fault, now: int)
    ensures var (t1, r1) := Respond(t, verb, sessionEmail, userId, fault, now);
            var (t2, r2) := Respond(t, verb, sessionEmail, userId, NoFault, now);
      && r1.Ok? == r2.Ok?
      && t1.posts == t2.posts && t1.comments == t2.comments
      && |t1.users| == |t2.users|
      && (forall j :: 0 <= j < |t1.users| ==> t1.users[j].followingIds == t2.users[j].followingIds)
  {
    if verb == POST && Authenticate(t.users, sessionEmail).SignedIn? && IsId(userId)
       && FindUser(t.users, userId.s).Some? {
      AcceptedFollowIgnoresNotifyFault(t, sessionEmail, userId.s, fault, now);
    }
  }

  /** The accepted-follow case of `FollowIgnoresNotifyFault`: the actor's
      list is written over the notified store, and the block itself never
      changes a `followingIds`. */
  lemma AcceptedFollowIgnoresNotifyFault(t: Tables, sessionEmail: Option<string>, target: Id,
                                         fault: Fault, now: int)
    requires Authenticate(t.users, sessionEmail).SignedIn? && target != ""
    requires FindUser(t.users, target).Some?
    ensures var t1 := Respond(t, POST, sessionEmail, Str(target), fault, now).0;
            var t2 := Respond(t, POST, sessionEmail, Str(target), NoFault, now).0;
      && |t1.users| == |t2.users|
      && (forall j :: 0 <= j < |t1.users| ==> t1.users[j].followingIds == t2.users[j].followingIds)
  {
    var n1 := Notify(t, target, FollowedMessage, now, fault);
    var n2 := Notify(t, target, FollowedMessage, now, NoFault);
    var u := Authenticate(t.users, sessionEmail).currentUser;
    var ids := UpdatedIds(POST, u.followingIds, target);
    SameKeysFindUser(t.users, n1.users, u.id);
    SameKeysFindUser(t.users, n2.users, u.id);
    var k := FindUser(t.users, u.id).value;
    var t1 := SetFollowingIds(n1, k, ids);
    var t2 := SetFollowingIds(n2, k, ids);
    assert Respond(t, POST, sessionEmail, Str(target), fault, now).0 == t1;
    assert Respond(t, POST, sessionEmail, Str(target), NoFault, now).0 == t2;
    NotifyKeepsProfiles(t, target, now, fault);
    NotifyKeepsProfiles(t, target, now, NoFault);
  }

  /** Follow then unfollow of a user not already followed restores the
      actor's `followingIds`. */
  lemma FollowThenUnfollow(t: Tables, sessionEmail: Option<string>, a: nat, m: nat,
                           fault: Fault, now: int, later: int)
    requires DistinctUserIds(t.users) && a < |t.users| && m < |t.users| && t.users[m].id != ""
    requires Authenticate(t.users, sessionEmail) == SignedIn(t.users[a])
    requires t.users[m].id !in t.users[a].followingIds
    ensures var t1 := Respond(t, POST, sessionEmail, Str(t.users[m].id), fault, now).0;
      var t2 := Respond(t1, DELETE, sessionEmail, Str(t.users[m].id), fault, later).0;
      a < |t2.users| && t2.users[a].followingIds == t.users[a].followingIds
  {
    var target := t.users[m].id;
    FollowAppends(t, sessionEmail, a, m, fault, now);
    var t1 := Respond(t, POST, sessionEmail, Str(target), fault, now).0;
    SameKeysFindUser(t.users, t1.users, target);
    FindUserOwnId(t1.users, a);
    AuthenticateSameKeys(t.users, t1.users, sessionEmail);
    var u1 := Authenticate(t1.users, sessionEmail).currentUser;
    assert FindUser(t1.users, u1.id) == Some(a);
    assert u1 == t1.users[a];
    PushThenFilter(t.users[a].followingIds, target);
  }

  /** Following oneself is accepted: the handler has no self-follow check,
      so the actor's own id is appended and the actor is notified. */
  lemma SelfFollowAccepted(t: Tables, sessionEmail: Option<string>, a: nat, now: int)
    requires DistinctUserIds(t.users) && a < |t.users| && t.users[a].id != ""
    requires Authenticate(t.users, sessionEmail) == SignedIn(t.users[a])
    ensures var (t', r) := Respond(t, POST, sessionEmail, Str(t.users[a].id), NoFault, now);
      && r.Ok?
      && t'.users[a].followingIds == t.users[a].followingIds + [t.users[a].id]
      && t'.users[a].hasNotification
  {
    FollowAppends(t, sessionEmail, a, a, NoFault, now);
    FollowNotifiesTarget(t, sessionEmail, a, a, now);
  }
}

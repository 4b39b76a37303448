/** `POST /api/like` and `DELETE /api/like`: like or unlike a post for the
    signed-in user, and on a like notify the post's author. */
module LikeApi {
  import opened Common
  import opened Entities
  import opened IdLists
  import opened ServerAuth
  import opened Store
  import opened Notifications

  const LikedMessage: string := "Someone liked your tweet!"

  /** The store after the request and the reply. The notification is sent
      before the liked ids are written back; only the post's `likedIds` is
      written, from the copy read before the notification. */
  function Respond(t: Tables, verb: string, sessionEmail: Option<string>, postId: Arg,
                   fault: Fault, now: int): (r: (Tables, Reply<Post>))
    ensures r.1 == MethodNotAllowed <==> verb != POST && verb != DELETE
    ensures !r.1.Ok? ==> r.0 == t
    ensures SameKeys(t.users, r.0.users) && SamePostIds(t.posts, r.0.posts)
    ensures r.0.comments == t.comments
    ensures r.1.Ok? ==> r.1.body in r.0.posts
  {
    if verb != POST && verb != DELETE then (t, MethodNotAllowed)
    else
      var auth := Authenticate(t.users, sessionEmail);
      if auth.Failed? || !IsId(postId) then (t, BadRequest)
      else match FindPost(t.posts, postId.s)
        case None => (t, BadRequest)
        case Some(i) =>
          var post := t.posts[i];
          var notified :=
            if verb == POST && post.userId != "" then Notify(t, post.userId, LikedMessage, now, fault) else t;
          var likedIds := UpdatedIds(verb, post.likedIds, auth.currentUser.id);
          (SetLikedIds(notified, i, likedIds), Ok(post.(likedIds := likedIds)))
  }

  /** The handler, step by step against the database. */
  method Handler(db: Database, verb: string, sessionEmail: Option<string>, postId: Arg,
                 fault: Fault, now: int) returns (reply: Reply<Post>)
    requires db.Valid()
    modifies db
    ensures db.Valid()
    ensures (db.Snapshot(), reply) == Respond(old(db.Snapshot()), verb, sessionEmail, postId, fault, now)
  {
    if verb != POST && verb != DELETE {
      return MethodNotAllowed;
    }
    var auth := Authenticate(db.users, sessionEmail);
    if auth.Failed? {
      return BadRequest;
    }
    var currentUser := auth.currentUser;
    if !IsId(postId) {
      return BadRequest;
    }
    var found := FindPost(db.posts, postId.s);
    if found.None? {
      return BadRequest;
    }
    var post := db.posts[found.value];
    var updatedLikedIds := post.likedIds;
    if verb == POST {
      updatedLikedIds := updatedLikedIds + [currentUser.id];
      // The block re-reads the post; nothing has changed it since.
      if post.userId != "" {
        NotifyBestEffort(db, post.userId, LikedMessage, now, fault);
      }
    }
    if verb == DELETE {
      updatedLikedIds := Without(updatedLikedIds, currentUser.id);
    }
    var updatedPost := db.UpdateLikedIds(postId.s, updatedLikedIds);
    return Ok(updatedPost);
  }

  /** A method other than POST or DELETE gets 405; a failed sign-in, a
      missing, empty or non-string `postId`, or an unknown post gets 400;
      neither changes the store. */
  lemma LikeRejects(t: Tables, verb: string, sessionEmail: Option<string>, postId: Arg, fault: Fault, now: int)
    ensures var (t', r) := Respond(t, verb, sessionEmail, postId, fault, now);
      && (verb != POST && verb != DELETE ==> r == MethodNotAllowed)
      && ((verb == POST || verb == DELETE) ==>
            (r == BadRequest <==>
               Authenticate(t.users, sessionEmail).Failed? || !IsId(postId) || FindPost(t.posts, postId.s).None?))
      && (!r.Ok? ==> t' == t)
  {
  }

  /** A like appends the current user's id to that post's `likedIds` (a
      duplicate if it was there already), writes no other post and no
      comment, and answers with the updated post. */
  lemma LikeAppends(t: Tables, sessionEmail: Option<string>, u: User, i: nat, fault: Fault, now: int)
    requires DistinctPostIds(t.posts) && i < |t.posts| && t.posts[i].id != ""
    requires Authenticate(t.users, sessionEmail) == SignedIn(u)
    ensures var (t', r) := Respond(t, POST, sessionEmail, Str(t.posts[i].id), fault, now);
      && t'.posts == t.posts[i := t.posts[i].(likedIds := t.posts[i].likedIds + [u.id])]
      && t'.comments == t.comments
      && r == Ok(t'.posts[i])
  {
    FindPostOwnId(t.posts, i);
  }

  /** An unlike removes every occurrence of the current user's id from that
      post's `likedIds` and sends no notification; nothing else changes. */
  lemma UnlikeRemoves(t: Tables, sessionEmail: Option<string>, u: User, i: nat, fault: Fault, now: int)
    requires DistinctPostIds(t.posts) && i < |t.posts| && t.posts[i].id != ""
    requires Authenticate(t.users, sessionEmail) == SignedIn(u)
    ensures var (t', r) := Respond(t, DELETE, sessionEmail, Str(t.posts[i].id), fault, now);
      && t' == t.(posts := t.posts[i := t.posts[i].(likedIds := Without(t.posts[i].likedIds, u.id))])
      && u.id !in t'.posts[i].likedIds
      && r == Ok(t'.posts[i])
  {
    FindPostOwnId(t.posts, i);
  }

  /** A like on a post whose author is stored adds one "Someone liked your
      tweet!" notification for the author and raises the author's flag (the
      author may be the liker). */
  lemma LikeNotifiesAuthor(t: Tables, sessionEmail: Option<string>, u: User, i: nat, k: nat, now: int)
    requires DistinctPostIds(t.posts) && DistinctUserIds(t.users) && i < |t.posts| && t.posts[i].id != ""
    requires Authenticate(t.users, sessionEmail) == SignedIn(u)
    requires k < |t.users| && t.users[k].id == t.posts[i].userId && t.posts[i].userId != ""
    ensures var t' := Respond(t, POST, sessionEmail, Str(t.posts[i].id), NoFault, now).0;
      && t'.notifications == t.notifications + [Notification(LikedMessage, t.users[k].id, now)]
      && t'.users == t.users[k := t.users[k].(hasNotification := true)]
  {
    FindPostOwnId(t.posts, i);
    NotifyDelivers(t, k, LikedMessage, now);
  }

  /** A failure in the notification block changes neither the liked ids
      nor the reply. */
  lemma LikeIgnoresNotifyFault(t: Tables, verb: string, sessionEmail: Option<string>, postId: Arg,
                               fault: Fault, now: int)
    ensures Respond(t, verb, sessionEmail, postId, fault, now).1 ==
            Respond(t, verb, sessionEmail, postId, NoFault, now).1
    ensures Respond(t, verb, sessionEmail, postId, fault, now).0.posts ==
            Respond(t, verb, sessionEmail, postId, NoFault, now).0.posts
  {
  }

  /** Like then unlike by a user who had not liked the post restores the
      post's `likedIds`, and with it the whole post table. */
  lemma LikeThenUnlike(t: Tables, sessionEmail: Option<string>, u: User, i: nat, fault: Fault, now: int, later: int)
    requires DistinctPostIds(t.posts) && i < |t.posts| && t.posts[i].id != ""
    requires Authenticate(t.users, sessionEmail) == SignedIn(u)
    requires u.id !in t.posts[i].likedIds
    ensures var t1 := Respond(t, POST, sessionEmail, Str(t.posts[i].id), fault, now).0;
      Respond(t1, DELETE, sessionEmail, Str(t.posts[i].id), fault, later).0.posts == t.posts
  {
    var id := t.posts[i].id;
    FindPostOwnId(t.posts, i);
    var t1 := Respond(t, POST, sessionEmail, Str(id), fault, now).0;
    assert t1.posts == t.posts[i := t.posts[i].(likedIds := t.posts[i].likedIds + [u.id])];
    AuthenticateSameKeys(t.users, t1.users, sessionEmail);
    SamePostIdsLookups(t.posts, t1.posts, id);
    PushThenFilter(t.posts[i].likedIds, u.id);
    assert t.posts[i].(likedIds := t.posts[i].likedIds) == t.posts[i];
  }
}

/** `POST /api/comments?postId=...`: the signed-in user comments on a post,
    and the post's author is notified. */
module CommentsApi {
  import opened Common
  import opened Entities
  import opened ServerAuth
  import opened Store
  import opened Notifications

  const RepliedMessage: string := "Someone replied on your tweet!"

  /** The store after the request and the reply. The handler does not check
      that the post exists before creating the comment; the post is only
      looked up, inside the best-effort block, to find whom to notify.
      `newId` and `now` are the id and timestamp the database assigns. */
  function Respond(t: Tables, verb: string, sessionEmail: Option<string>, body: string, postId: Arg,
                   newId: Id, fault: Fault, now: int): (r: (Tables, Reply<Comment>))
    ensures r.1 == MethodNotAllowed <==> verb != POST
    ensures !r.1.Ok? ==> r.0 == t
    ensures SameKeys(t.users, r.0.users) && r.0.posts == t.posts
    ensures r.1.Ok? ==> r.0.comments == t.comments + [r.1.body]
  {
    if verb != POST then (t, MethodNotAllowed)
    else
      var auth := Authenticate(t.users, sessionEmail);
      if auth.Failed? || !IsId(postId) then (t, BadRequest)
      else
        var comment := Comment(newId, body, auth.currentUser.id, postId.s, now);
        var created := AddComment(t, comment);
        var notified :=
          match FindPost(created.posts, postId.s)
          case Some(i) =>
            if created.posts[i].userId != "" then Notify(created, created.posts[i].userId, RepliedMessage, now, fault)
            else created
          case None => created;
        (notified, Ok(comment))
  }

  /** The handler, step by step against the database. */
  method Handler(db: Database, verb: string, sessionEmail: Option<string>, body: string, postId: Arg,
                 newId: Id, fault: Fault, now: int) returns (reply: Reply<Comment>)
    requires db.Valid()
    modifies db
    ensures db.Valid()
    ensures (db.Snapshot(), reply) ==
      Respond(old(db.Snapshot()), verb, sessionEmail, body, postId, newId, fault, now)
  {
    if verb != POST {
      return MethodNotAllowed;
    }
    var auth := Authenticate(db.users, sessionEmail);
    if auth.Failed? {
      return BadRequest;
    }
    var currentUser := auth.currentUser;
    if !IsId(postId) {
      return BadRequest;
    }
    var comment := Comment(newId, body, currentUser.id, postId.s, now);
    db.CreateComment(comment);
    var found := FindPost(db.posts, postId.s);
    if found.Some? && db.posts[found.value].userId != "" {
      NotifyBestEffort(db, db.posts[found.value].userId, RepliedMessage, now, fault);
    }
    return Ok(comment);
  }

  /** A method other than POST gets 405; a failed sign-in or a missing,
      empty or non-string `postId` gets 400; neither creates a comment or a
      notification, or changes anything else. */
  lemma CommentRejects(t: Tables, verb: string, sessionEmail: Option<string>, body: string, postId: Arg,
                       newId: Id, fault: Fault, now: int)
    ensures var (t', r) := Respond(t, verb, sessionEmail, body, postId, newId, fault, now);
      && (verb != POST ==> r == MethodNotAllowed)
      && (verb == POST ==>
            (r == BadRequest <==> Authenticate(t.users, sessionEmail).Failed? || !IsId(postId)))
      && (!r.Ok? ==> t' == t)
  {
  }

  /** An accepted comment is stored with the current user as author, the
      query's post id and the body as given (not validated), whatever
      happens in the notification block, and it is the reply. Posts are
      untouched. */
  lemma CommentCreated(t: Tables, sessionEmail: Option<string>, u: User, body: string, postId: Id,
                       newId: Id, fault: Fault, now: int)
    requires Authenticate(t.users, sessionEmail) == SignedIn(u) && postId != ""
    ensures var (t', r) := Respond(t, POST, sessionEmail, body, Str(postId), newId, fault, now);
      && t'.comments == t.comments + [Comment(newId, body, u.id, postId, now)]
      && t'.posts == t.posts
      && r == Ok(Comment(newId, body, u.id, postId, now))
  {
  }

  /** On a stored post whose author is stored, one "Someone replied on your
      tweet!" notification is added for the author and the author's flag is
      raised, even when the author is the commenter. */
  lemma CommentNotifiesAuthor(t: Tables, sessionEmail: Option<string>, u: User, body: string, i: nat, k: nat,
                              newId: Id, now: int)
    requires DistinctPostIds(t.posts) && DistinctUserIds(t.users) && i < |t.posts| && t.posts[i].id != ""
    requires Authenticate(t.users, sessionEmail) == SignedIn(u)
    requires k < |t.users| && t.users[k].id == t.posts[i].userId && t.posts[i].userId != ""
    ensures var t' := Respond(t, POST, sessionEmail, body, Str(t.posts[i].id), newId, NoFault, now).0;
      && t'.notifications == t.notifications + [Notification(RepliedMessage, t.users[k].id, now)]
      && t'.users == t.users[k := t.users[k].(hasNotification := true)]
  {
    FindPostOwnId(t.posts, i);
    NotifyDelivers(AddComment(t, Comment(newId, body, u.id, t.posts[i].id, now)), k, RepliedMessage, now);
  }

  /** A comment on a post id that names no post is still stored (an
      orphan), and nobody is notified. */
  lemma CommentOnMissingPost(t: Tables, sessionEmail: Option<string>, u: User, body: string, postId: Id,
                             newId: Id, fault: Fault, now: int)
    requires Authenticate(t.users, sessionEmail) == SignedIn(u) && postId != ""
    requires FindPost(t.posts, postId).None?
    ensures Respond(t, POST, sessionEmail, body, Str(postId), newId, fault, now).0 ==
      t.(comments := t.comments + [Comment(newId, body, u.id, postId, now)])
  {
  }
}

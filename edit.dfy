/** `PATCH /api/edit`: the signed-in user overwrites their own profile. */
module EditApi {
  import opened Common
  import opened Entities
  import opened ServerAuth
  import opened Store

  /** The store after the request and the reply. `name` and `username` must
      be non-empty; `bio`, `profileImage` and `coverImage` are written when
      given (`None` stands for `undefined`, which the database's update
      leaves as stored). */
  function Respond(t: Tables, verb: string, sessionEmail: Option<string>,
                   name: Option<string>, username: Option<string>, bio: Option<string>,
                   profileImage: Option<string>, coverImage: Option<string>): (r: (Tables, Reply<User>))
    ensures r.1 == MethodNotAllowed <==> verb != PATCH
    ensures !r.1.Ok? ==> r.0 == t
    ensures SameKeys(t.users, r.0.users)
    ensures r.0.posts == t.posts && r.0.comments == t.comments && r.0.notifications == t.notifications
    ensures r.1.Ok? ==> r.1.body in r.0.users
  {
    if verb != PATCH then (t, MethodNotAllowed)
    else
      var auth := Authenticate(t.users, sessionEmail);
      if auth.Failed? then (t, BadRequest)
      else if name.None? || name.value == "" || username.None? || username.value == "" then (t, BadRequest)
      else
        assert FindUser(t.users, auth.currentUser.id).Some?;
        var k := FindUser(t.users, auth.currentUser.id).value;
        var updated := SetProfile(t, k, name.value, username.value, bio, profileImage, coverImage);
        (updated, Ok(updated.users[k]))
  }

  /** The handler, step by step against the database. */
  method Handler(db: Database, verb: string, sessionEmail: Option<string>,
                 name: Option<string>, username: Option<string>, bio: Option<string>,
                 profileImage: Option<string>, coverImage: Option<string>) returns (reply: Reply<User>)
    requires db.Valid()
    modifies db
    ensures db.Valid()
    ensures (db.Snapshot(), reply) ==
      Respond(old(db.Snapshot()), verb, sessionEmail, name, username, bio, profileImage, coverImage)
  {
    if verb != PATCH {
      return MethodNotAllowed;
    }
    var auth := Authenticate(db.users, sessionEmail);
    if auth.Failed? {
      return BadRequest;
    }
    var currentUser := auth.currentUser;
    if name.None? || name.value == "" || username.None? || username.value == "" {
      return BadRequest;
    }
    assert FindUser(db.users, currentUser.id).Some?;
    var updatedUser := db.UpdateProfile(currentUser.id, name.value, username.value, bio, profileImage, coverImage);
    return Ok(updatedUser);
  }

  /** A method other than PATCH gets 405; a failed sign-in or an empty or
      missing `name` or `username` gets 400; neither changes the store. */
  lemma EditRejects(t: Tables, verb: string, sessionEmail: Option<string>,
                    name: Option<string>, username: Option<string>, bio: Option<string>,
                    profileImage: Option<string>, coverImage: Option<string>)
    ensures var (t', r) := Respond(t, verb, sessionEmail, name, username, bio, profileImage, coverImage);
      && (verb != PATCH ==> r == MethodNotAllowed)
      && (verb == PATCH ==>
            (r == BadRequest <==>
               Authenticate(t.users, sessionEmail).Failed? ||
               name.None? || name.value == "" || username.None? || username.value == ""))
      && (!r.Ok? ==> t' == t)
  {
  }

  /** An accepted edit writes the five profile fields of the current user
      (an optional one only when given) and answers with that record; its
      id, email, `followingIds` and `hasNotification`, every other user, and
      every other table stay as they were. */
  lemma EditWritesProfile(t: Tables, sessionEmail: Option<string>, a: nat, name: string, username: string,
                          bio: Option<string>, profileImage: Option<string>, coverImage: Option<string>)
    requires DistinctUserIds(t.users) && a < |t.users| && name != "" && username != ""
    requires Authenticate(t.users, sessionEmail) == SignedIn(t.users[a])
    ensures var (t', r) := Respond(t, PATCH, sessionEmail, Some(name), Some(username), bio, profileImage, coverImage);
      && |t'.users| == |t.users|
      && t'.users[a].name == Some(name) && t'.users[a].username == Some(username)
      && (bio.Some? ==> t'.users[a].bio == bio) && (bio.None? ==> t'.users[a].bio == t.users[a].bio)
      && (profileImage.Some? ==> t'.users[a].profileImage == profileImage)
      && (profileImage.None? ==> t'.users[a].profileImage == t.users[a].profileImage)
      && (coverImage.Some? ==> t'.users[a].coverImage == coverImage)
      && (coverImage.None? ==> t'.users[a].coverImage == t.users[a].coverImage)
      && t'.users[a].id == t.users[a].id && t'.users[a].email == t.users[a].email
      && t'.users[a].followingIds == t.users[a].followingIds
      && t'.users[a].hasNotification == t.users[a].hasNotification
      && (forall j :: 0 <= j < |t.users| && j != a ==> t'.users[j] == t.users[j])
      && t'.posts == t.posts && t'.comments == t.comments && t'.notifications == t.notifications
      && r == Ok(t'.users[a])
  {
    FindUserOwnId(t.users, a);
  }
}

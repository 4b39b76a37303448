/** The in-memory store that stands in for the database: four tables and
    the single-record writes the handlers issue (`create`, and `update` by
    id of one field group). `Tables` is the store as a value, the
    `Database` class the store the handlers change in place. */
module Store {
  import opened Common
  import opened Entities

  datatype Tables = Tables(
    users: seq<User>,
    posts: seq<Post>,
    comments: seq<Comment>,
    notifications: seq<Notification>)

  /** The unique indexes hold: user ids, user emails, post ids. */
  predicate Consistent(t: Tables) {
    DistinctUserIds(t.users) && DistinctEmails(t.users) && DistinctPostIds(t.posts)
  }

  /** `update({ data: { likedIds } })` on the post at position `i`. */
  function SetLikedIds(t: Tables, i: nat, likedIds: seq<Id>): Tables
    requires i < |t.posts|
  {
    t.(posts := t.posts[i := t.posts[i].(likedIds := likedIds)])
  }

  /** `update({ data: { followingIds } })` on the user at position `k`. */
  function SetFollowingIds(t: Tables, k: nat, followingIds: seq<Id>): (r: Tables)
    requires k < |t.users|
    ensures SameKeys(t.users, r.users)
    ensures r.posts == t.posts && r.comments == t.comments && r.notifications == t.notifications
  {
    t.(users := t.users[k := t.users[k].(followingIds := followingIds)])
  }

  /** `update({ data: { hasNotification: true } })` on the user at position `k`. */
  function SetHasNotification(t: Tables, k: nat): Tables
    requires k < |t.users|
  {
    t.(users := t.users[k := t.users[k].(hasNotification := true)])
  }

  /** An optional field in an update: a given value replaces the stored
      one, and `undefined` leaves the stored value. */
  function Patch(stored: Option<string>, given: Option<string>): (r: Option<string>)
    ensures given.Some? ==> r == given
    ensures given.None? ==> r == stored
  {
    if given.Some? then given else stored
  }

  /** `update({ data: { name, username, bio, profileImage, coverImage } })`
      on the user at position `k`. */
  function SetProfile(t: Tables, k: nat, name: string, username: string,
                      bio: Option<string>, profileImage: Option<string>, coverImage: Option<string>): (r: Tables)
    requires k < |t.users|
    ensures |r.users| == |t.users| && SameKeys(t.users, r.users)
    ensures r.users[k].name == Some(name) && r.users[k].username == Some(username)
    ensures r.users[k].bio == Patch(t.users[k].bio, bio)
    ensures r.users[k].profileImage == Patch(t.users[k].profileImage, profileImage)
    ensures r.users[k].coverImage == Patch(t.users[k].coverImage, coverImage)
    ensures r.users[k].followingIds == t.users[k].followingIds
    ensures r.users[k].hasNotification == t.users[k].hasNotification
    ensures forall j :: 0 <= j < |t.users| && j != k ==> r.users[j] == t.users[j]
    ensures r.posts == t.posts && r.comments == t.comments && r.notifications == t.notifications
  {
    var u := t.users[k];
    t.(users := t.users[k := u.(name := Some(name), username := Some(username),
                                bio := Patch(u.bio, bio),
                                profileImage := Patch(u.profileImage, profileImage),
                                coverImage := Patch(u.coverImage, coverImage))])
  }

  function AddPost(t: Tables, p: Post): Tables {
    t.(posts := t.posts + [p])
  }

  function AddComment(t: Tables, c: Comment): Tables {
    t.(comments := t.comments + [c])
  }

  function AddNotification(t: Tables, n: Notification): Tables {
    t.(notifications := t.notifications + [n])
  }

  /** Rewriting one user record without touching its id or email keeps the
      unique indexes. */
  lemma ReplaceUserConsistent(t: Tables, k: nat, u: User)
    requires Consistent(t) && k < |t.users|
    requires u.id == t.users[k].id && u.email == t.users[k].email
    ensures Consistent(t.(users := t.users[k := u]))
    ensures SameKeys(t.users, t.users[k := u])
  {
    SameKeysUnique(t.users, t.users[k := u]);
  }

  class Database {
    var users: seq<User>
    var posts: seq<Post>
    var comments: seq<Comment>
    var notifications: seq<Notification>

    function Snapshot(): Tables
      reads this
    {
      Tables(users, posts, comments, notifications)
    }

    ghost predicate Valid()
      reads this
    {
      Consistent(Snapshot())
    }

    constructor (initial: Tables)
      requires Consistent(initial)
      ensures Valid() && Snapshot() == initial
    {
      users := initial.users;
      posts := initial.posts;
      comments := initial.comments;
      notifications := initial.notifications;
    }

    /** `prisma.post.update({ where: { id: postId }, data: { likedIds } })`. */
    method UpdateLikedIds(postId: Id, likedIds: seq<Id>) returns (updated: Post)
      requires Valid() && FindPost(posts, postId).Some?
      modifies this
      ensures Valid()
      ensures Snapshot() == SetLikedIds(old(Snapshot()), FindPost(old(posts), postId).value, likedIds)
      ensures updated == old(posts)[FindPost(old(posts), postId).value].(likedIds := likedIds)
    {
      var i := FindPost(posts, postId).value;
      updated := posts[i].(likedIds := likedIds);
      SamePostIdsLookups(posts, posts[i := updated], "");
      posts := posts[i := updated];
    }

    /** `prisma.user.update({ where: { id: userId }, data: { followingIds } })`. */
    method UpdateFollowingIds(userId: Id, followingIds: seq<Id>) returns (updated: User)
      requires Valid() && FindUser(users, userId).Some?
      modifies this
      ensures Valid()
      ensures Snapshot() == SetFollowingIds(old(Snapshot()), FindUser(old(users), userId).value, followingIds)
      ensures updated == users[FindUser(old(users), userId).value]
    {
      var k := FindUser(users, userId).value;
      ReplaceUserConsistent(Snapshot(), k, users[k].(followingIds := followingIds));
      users := users[k := users[k].(followingIds := followingIds)];
      updated := users[k];
    }

    /** `prisma.user.update({ where: { id: userId }, data: { hasNotification: true } })`. */
    method RaiseNotificationFlag(userId: Id)
      requires Valid() && FindUser(users, userId).Some?
      modifies this
      ensures Valid()
      ensures Snapshot() == SetHasNotification(old(Snapshot()), FindUser(old(users), userId).value)
    {
      var k := FindUser(users, userId).value;
      ReplaceUserConsistent(Snapshot(), k, users[k].(hasNotification := true));
      users := users[k := users[k].(hasNotification := true)];
    }

    /** `prisma.user.update({ where: { id: userId }, data: { name, username, bio, profileImage, coverImage } })`. */
    method UpdateProfile(userId: Id, name: string, username: string,
                         bio: Option<string>, profileImage: Option<string>, coverImage: Option<string>)
      returns (updated: User)
      requires Valid() && FindUser(users, userId).Some?
      modifies this
      ensures Valid()
      ensures Snapshot() ==
        SetProfile(old(Snapshot()), FindUser(old(users), userId).value, name, username, bio, profileImage, coverImage)
      ensures updated == users[FindUser(old(users), userId).value]
    {
      var k := FindUser(users, userId).value;
      var u := users[k];
      var u' := u.(name := Some(name), username := Some(username),
                   bio := Patch(u.bio, bio),
                   profileImage := Patch(u.profileImage, profileImage),
                   coverImage := Patch(u.coverImage, coverImage));
      ReplaceUserConsistent(Snapshot(), k, u');
      users := users[k := u'];
      updated := u';
    }

    /** `prisma.post.create(...)`; the database hands out a fresh id. */
    method CreatePost(p: Post)
      requires Valid() && FindPost(posts, p.id).None?
      modifies this
      ensures Valid()
      ensures Snapshot() == AddPost(old(Snapshot()), p)
    {
      posts := posts + [p];
    }

    /** `prisma.comment.create(...)`. */
    method CreateComment(c: Comment)
      requires Valid()
      modifies this
      ensures Valid()
      ensures Snapshot() == AddComment(old(Snapshot()), c)
    {
      comments := comments + [c];
    }

    /** `prisma.notification.create(...)`. */
    method CreateNotification(n: Notification)
      requires Valid()
      modifies this
      ensures Valid()
      ensures Snapshot() == AddNotification(old(Snapshot()), n)
    {
      notifications := notifications + [n];
    }
  }
}

/** The stored records and the lookups the handlers perform on them
    (`findUnique` by id or by email). Tables are sequences of records, so a
    lookup is a scan that returns the position of the first match. */
module Entities {
  import opened Common

  datatype User = User(
    id: Id,
    email: Option<string>,
    name: Option<string>,
    username: Option<string>,
    bio: Option<string>,
    profileImage: Option<string>,
    coverImage: Option<string>,
    followingIds: seq<Id>,
    hasNotification: bool)

  datatype Post = Post(id: Id, body: string, userId: Id, createdAt: int, likedIds: seq<Id>)

  datatype Comment = Comment(id: Id, body: string, userId: Id, postId: Id, createdAt: int)

  datatype Notification = Notification(body: string, userId: Id, createdAt: int)

  /** Position of the first element of `s` satisfying `p`, if any. */
  function IndexWhere<T>(s: seq<T>, p: T -> bool): (r: Option<nat>)
    ensures r.Some? ==> r.value < |s| && p(s[r.value])
    ensures r.Some? ==> forall j :: 0 <= j < r.value ==> !p(s[j])
    ensures r.None? ==> forall j :: 0 <= j < |s| ==> !p(s[j])
  {
    if |s| == 0 then None
    else if p(s[0]) then Some(0)
    else match IndexWhere(s[1..], p)
      case None => None
      case Some(k) => Some(k + 1)
  }

  /** `prisma.user.findUnique({ where: { id } })`, as a position in the table. */
  function FindUser(users: seq<User>, id: Id): (r: Option<nat>)
    ensures r.Some? ==> r.value < |users| && users[r.value].id == id
    ensures r.Some? ==> forall j :: 0 <= j < r.value ==> users[j].id != id
    ensures r.None? <==> forall j :: 0 <= j < |users| ==> users[j].id != id
  {
    IndexWhere(users, (u: User) => u.id == id)
  }

  /** `prisma.user.findUnique({ where: { email } })`, as a position in the table. */
  function FindUserByEmail(users: seq<User>, email: string): (r: Option<nat>)
    ensures r.Some? ==> r.value < |users| && users[r.value].email == Some(email)
    ensures r.Some? ==> forall j :: 0 <= j < r.value ==> users[j].email != Some(email)
    ensures r.None? <==> forall j :: 0 <= j < |users| ==> users[j].email != Some(email)
  {
    IndexWhere(users, (u: User) => u.email == Some(email))
  }

  /** `prisma.post.findUnique({ where: { id } })`, as a position in the table. */
  function FindPost(posts: seq<Post>, id: Id): (r: Option<nat>)
    ensures r.Some? ==> r.value < |posts| && posts[r.value].id == id
    ensures r.Some? ==> forall j :: 0 <= j < r.value ==> posts[j].id != id
    ensures r.None? <==> forall j :: 0 <= j < |posts| ==> posts[j].id != id
  {
    IndexWhere(posts, (p: Post) => p.id == id)
  }

  /** The unique indexes of the tables: user id, user email, post id. */
  predicate DistinctUserIds(users: seq<User>) {
    forall i, j :: 0 <= i < j < |users| ==> users[i].id != users[j].id
  }

  predicate DistinctEmails(users: seq<User>) {
    forall i, j :: 0 <= i < j < |users| && users[i].email.Some? ==> users[i].email != users[j].email
  }

  predicate DistinctPostIds(posts: seq<Post>) {
    forall i, j :: 0 <= i < j < |posts| ==> posts[i].id != posts[j].id
  }

  /** Two user tables that agree on every record's id and email (they may
      differ in the other fields). */
  predicate SameKeys(a: seq<User>, b: seq<User>) {
    |a| == |b| && forall j :: 0 <= j < |a| ==> a[j].id == b[j].id && a[j].email == b[j].email
  }

  /** Two post tables that agree on every record's id. */
  predicate SamePostIds(a: seq<Post>, b: seq<Post>) {
    |a| == |b| && forall j :: 0 <= j < |a| ==> a[j].id == b[j].id
  }

  /** With unique ids, looking a record's own id up finds that record. */
  lemma FindUserOwnId(users: seq<User>, k: nat)
    requires DistinctUserIds(users) && k < |users|
    ensures FindUser(users, users[k].id) == Some(k)
  {
    assert FindUser(users, users[k].id).Some?;
  }

  lemma FindPostOwnId(posts: seq<Post>, k: nat)
    requires DistinctPostIds(posts) && k < |posts|
    ensures FindPost(posts, posts[k].id) == Some(k)
  {
    assert FindPost(posts, posts[k].id).Some?;
  }

  /** Tables with the same keys answer every lookup by id alike. */
  lemma SameKeysFindUser(a: seq<User>, b: seq<User>, id: Id)
    requires SameKeys(a, b)
    ensures FindUser(a, id) == FindUser(b, id)
  {
    var ra := FindUser(a, id);
    if ra.Some? {
      assert b[ra.value].id == id;
    } else {
      assert forall j :: 0 <= j < |b| ==> b[j].id != id;
    }
  }

  /** Tables with the same keys answer every lookup by email alike. */
  lemma SameKeysFindUserByEmail(a: seq<User>, b: seq<User>, email: string)
    requires SameKeys(a, b)
    ensures FindUserByEmail(a, email) == FindUserByEmail(b, email)
  {
    var ea := FindUserByEmail(a, email);
    if ea.Some? {
      assert b[ea.value].email == Some(email);
    } else {
      assert forall j :: 0 <= j < |b| ==> b[j].email != Some(email);
    }
  }

  /** Tables with the same keys satisfy the same unique indexes. */
  lemma SameKeysUnique(a: seq<User>, b: seq<User>)
    requires SameKeys(a, b)
    ensures DistinctUserIds(a) <==> DistinctUserIds(b)
    ensures DistinctEmails(a) <==> DistinctEmails(b)
  {
  }

  lemma SamePostIdsLookups(a: seq<Post>, b: seq<Post>, id: Id)
    requires SamePostIds(a, b)
    ensures FindPost(a, id) == FindPost(b, id)
    ensures DistinctPostIds(a) <==> DistinctPostIds(b)
  {
    var ra := FindPost(a, id);
    if ra.Some? {
      assert b[ra.value].id == id;
    } else {
      assert forall j :: 0 <= j < |b| ==> b[j].id != id;
    }
  }
}

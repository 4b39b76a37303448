/** `POST /api/posts` creates a post for the signed-in user; `GET
    /api/posts[?userId=...]` lists all posts, or one user's, newest first. */
module PostsApi {
  import opened Common
  import opened Entities
  import opened ServerAuth
  import opened Store

  datatype PostsPayload = Created(post: Post) | Listed(posts: seq<Post>)

  /** `orderBy: { createdAt: "desc" }`. */
  predicate NewestFirst(s: seq<Post>) {
    forall i, j :: 0 <= i < j < |s| ==> s[i].createdAt >= s[j].createdAt
  }

  /** Insert `p` into a newest-first list, in front of the first strictly older post. */
  function InsertByDate(p: Post, s: seq<Post>): (r: seq<Post>)
    requires NewestFirst(s)
    ensures NewestFirst(r)
    ensures multiset(r) == multiset(s) + multiset{p}
    ensures |r| == |s| + 1 && (r[0] == p || (|s| > 0 && r[0] == s[0]))
  {
    if |s| == 0 || p.createdAt >= s[0].createdAt then [p] + s
    else
      var rest := InsertByDate(p, s[1..]);
      assert s == [s[0]] + s[1..];
      assert s[0].createdAt >= rest[0].createdAt;
      assert forall j :: 0 <= j < |rest| ==> rest[0].createdAt >= rest[j].createdAt;
      [s[0]] + rest
  }

  /** The database's newest-first ordering. Posts with equal `createdAt`
      come out in some order; here, in their table order. */
  function SortNewestFirst(s: seq<Post>): (r: seq<Post>)
    ensures NewestFirst(r)
    ensures multiset(r) == multiset(s)
  {
    if |s| == 0 then []
    else
      assert s == [s[0]] + s[1..];
      InsertByDate(s[0], SortNewestFirst(s[1..]))
  }

  /** `where: { userId }`. */
  function ByAuthor(posts: seq<Post>, userId: Id): (r: seq<Post>)
    ensures forall p :: multiset(r)[p] == if p.userId == userId then multiset(posts)[p] else 0
  {
    if |posts| == 0 then []
    else
      assert posts == [posts[0]] + posts[1..];
      (if posts[0].userId == userId then [posts[0]] else []) + ByAuthor(posts[1..], userId)
  }

  /** The GET query: with a non-empty string `userId`, exactly that user's
      posts; otherwise every post; newest first either way. */
  function ListPosts(posts: seq<Post>, userId: Arg): (r: seq<Post>)
    ensures NewestFirst(r)
    ensures forall p :: multiset(r)[p] == if IsId(userId) && p.userId != userId.s then 0 else multiset(posts)[p]
  {
    SortNewestFirst(if IsId(userId) then ByAuthor(posts, userId.s) else posts)
  }

  /** The store after the request and the reply. Only POST signs in;
      `newId` and `now` are the id and timestamp the database assigns. */
  function Respond(t: Tables, verb: string, sessionEmail: Option<string>, body: string, userId: Arg,
                   newId: Id, now: int): (r: (Tables, Reply<PostsPayload>))
    ensures r.1 == MethodNotAllowed <==> verb != POST && verb != GET
    ensures verb != POST || !r.1.Ok? ==> r.0 == t
    ensures r.0.users == t.users && r.0.comments == t.comments
    ensures r.1.Ok? && r.1.body.Created? ==> r.0.posts == t.posts + [r.1.body.post]
    ensures r.1.Ok? && r.1.body.Listed? ==> forall p :: p in r.1.body.posts ==> p in t.posts
  {
    if verb != POST && verb != GET then (t, MethodNotAllowed)
    else if verb == POST then
      var auth := Authenticate(t.users, sessionEmail);
      if auth.Failed? then (t, BadRequest)
      else
        var post := Post(newId, body, auth.currentUser.id, now, []);
        (AddPost(t, post), Ok(Created(post)))
    else (t, Ok(Listed(ListPosts(t.posts, userId))))
  }

  /** The handler, step by step against the database. */
  method Handler(db: Database, verb: string, sessionEmail: Option<string>, body: string, userId: Arg,
                 newId: Id, now: int) returns (reply: Reply<PostsPayload>)
    requires db.Valid()
    requires verb == POST ==> FindPost(db.posts, newId).None?
    modifies db
    ensures db.Valid()
    ensures (db.Snapshot(), reply) == Respond(old(db.Snapshot()), verb, sessionEmail, body, userId, newId, now)
  {
    if verb != POST && verb != GET {
      return MethodNotAllowed;
    }
    if verb == POST {
      var auth := Authenticate(db.users, sessionEmail);
      if auth.Failed? {
        return BadRequest;
      }
      var post := Post(newId, body, auth.currentUser.id, now, []);
      db.CreatePost(post);
      return Ok(Created(post));
    }
    var posts := ListPosts(db.posts, userId);
    return Ok(Listed(posts));
  }

  /** A method other than POST or GET gets 405, and a POST without a
      signed-in user 400; neither changes the store. */
  lemma PostsRejects(t: Tables, verb: string, sessionEmail: Option<string>, body: string, userId: Arg,
                     newId: Id, now: int)
    ensures var (t', r) := Respond(t, verb, sessionEmail, body, userId, newId, now);
      && (verb != POST && verb != GET ==> r == MethodNotAllowed)
      && (r == BadRequest <==> verb == POST && Authenticate(t.users, sessionEmail).Failed?)
      && (!r.Ok? ==> t' == t)
  {
  }

  /** A POST adds exactly one post, with the given body, the current user as
      author and no likes, and answers with it; with a fresh id the unique
      indexes still hold. */
  lemma CreateAddsOne(t: Tables, sessionEmail: Option<string>, u: User, body: string, userId: Arg,
                      newId: Id, now: int)
    requires Authenticate(t.users, sessionEmail) == SignedIn(u)
    ensures var (t', r) := Respond(t, POST, sessionEmail, body, userId, newId, now);
      && t' == t.(posts := t.posts + [Post(newId, body, u.id, now, [])])
      && r == Ok(Created(Post(newId, body, u.id, now, [])))
      && (Consistent(t) && FindPost(t.posts, newId).None? ==> Consistent(t'))
  {
  }

  /** A GET changes nothing and answers with the matching posts, each as
      often as it is stored, newest first. */
  lemma GetLists(t: Tables, sessionEmail: Option<string>, body: string, userId: Arg, newId: Id, now: int, p: Post)
    ensures var (t', r) := Respond(t, GET, sessionEmail, body, userId, newId, now);
      && t' == t && r.Ok? && r.body.Listed?
      && NewestFirst(r.body.posts)
      && (IsId(userId) ==> (p in r.body.posts <==> p in t.posts && p.userId == userId.s))
      && (!IsId(userId) ==> (p in r.body.posts <==> p in t.posts))
  {
    var l := ListPosts(t.posts, userId);
    assert p in l <==> multiset(l)[p] > 0;
    assert p in t.posts <==> multiset(t.posts)[p] > 0;
  }
}

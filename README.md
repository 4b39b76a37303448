# Social app request handlers, modelled in Dafny

This project models the server-side core of a small social-media web
application (posts, likes, follows, comments, notifications). The
modelled core is:

- the API handlers for likes, follows, comments, profile edits and posts;
- the `serverAuth` session lookup that runs before every write;
- the shared best-effort notification block;
- the client hooks' membership test and toggle decision;
- the text truncation of the `SeeMoreLess` component.

The database is replaced by an in-memory store of four tables: users,
posts, comments and notifications.

The handlers share a pattern, though not every handler has every step:

1. Check the request method. A wrong one gets 405. All five handlers do this.
2. Sign in through `serverAuth`; a failure gets 400. Like, follow, comments
   and edit always do this. Posts does it only for POST; its GET reads
   without a session.
3. Validate the request arguments; a bad one gets 400.
   - Like, follow and comments check an id with `!id || typeof id !== "string"`.
   - Like and follow also look the id up and reject an unknown one.
   - Comments does not look the post up.
   - Edit instead requires non-empty `name` and `username`.
   - Posts checks nothing: a GET treats a missing or non-string `userId`
     as "all posts".
4. Write. Like and follow write back one id list. Edit overwrites one user's
   profile fields. Comments and posts (POST) create one record.
5. Run a best-effort notification block, whose failures are caught and only
   logged. Only like (POST), follow (POST) and comments do this. Unlike,
   unfollow, edit and posts send no notification.

Each handler appears twice:

- `Respond` is a pure function. It maps the store (`Store.Tables`) and the
  request to the new store and the reply.
- `Handler` is a method that runs the same steps against a `Store.Database`
  object, updating it in place. Its postcondition says that the new state
  and the reply are exactly what `Respond` gives.

The properties are lemmas about `Respond` and about the pieces it is built
from.

Modelling choices:

- `likedIds` and `followingIds` are sequences, not sets. Like and follow
  append without de-duplication. Unlike and unfollow remove every occurrence.
- The handlers do not stop a user from following themselves, and the model
  does not either.
- A request argument is `Common.Arg`: `undefined`, a string, or another JSON
  value (of which only its truthiness matters). The id guard
  `!id || typeof id !== "string"` accepts exactly the non-empty strings.
- The session is reduced to the email it carries (`Option<string>`).
- Where the notification block fails is a parameter (`Common.Fault`). It can
  fail before the notification row is created (the post re-read or the
  create itself). It can fail after the create (the flag update). If no user
  has the target id, the flag update throws in the same way.
- Ids and timestamps that the database assigns are parameters (`newId`,
  `now`).
- Tables are sequences of records, and a lookup returns the first match.
  `Store.Consistent` states the unique indexes: user id, user email and
  post id. Every `Handler` preserves them.
- In a profile edit, an optional field left `undefined` (`None`) keeps its
  stored value. This is how the database's update treats `undefined`.
- The client hooks return the effects of a toggle as a list: open the login
  modal, send a request, refresh a cache, show a toast. Whether the request
  succeeds is a parameter.

Three behaviours of the handler code are worth stating outright, because
a reader might expect otherwise:

- The like and follow handlers push onto `likedIds` and `followingIds`
  without checking whether the id is already there (pages/api/like.ts:46-51,
  pages/api/follow.ts:46-51), so a repeated like or follow stores the id
  twice. `IdLists.PushTwiceDuplicates` shows this.
- The follow handler never compares `userId` with the signed-in user's id
  (pages/api/follow.ts:28-51), so following oneself is accepted.
  `FollowApi.SelfFollowAccepted` shows this.
- The comment handler creates the comment before it looks the post up
  (pages/api/comments.ts:26-41), and it never rejects a post id that names
  no post. Only the notification depends on the lookup.
  `CommentsApi.CommentOnMissingPost` shows this, under the assumption that
  the database accepts the dangling `postId` (see "## Left out").

## Model

| member | source | states |
|---|---|---|
| `Entities.FindUser` | pages/api/follow.ts:34-43 | finds the first user with the id; none exactly when no stored user has it |
| `Entities.FindUserByEmail` | libs/serverAuth.ts:21-25 | finds the first user with the email; none exactly when no stored user has it |
| `Entities.FindPost` | pages/api/like.ts:34-43 | finds the first post with the id; none exactly when no stored post has it |
| `IdLists.Includes` | hooks/useLike.ts:27 | the `includes` scan is true exactly when the id occurs in the list |
| `IdLists.Without` | pages/api/like.ts:90-92 | `filter` leaves no occurrence of the id, keeps every other id as often as before, and never lengthens the list |
| `IdLists.WithoutAbsent` | pages/api/follow.ts:81-83 | filtering an id that is absent is a no-op |
| `IdLists.WithoutConcat` | pages/api/like.ts:90-92 | filtering works element by element, so the ids that remain keep their order |
| `IdLists.PushThenFilter` | pages/api/follow.ts:51-83 | pushing an absent id and then filtering it out restores the original list |
| `IdLists.PushAppendsOne` | pages/api/like.ts:46-51 | a POST copies the list and appends exactly one copy of the id at the end |
| `IdLists.FilterDropsAll` | pages/api/follow.ts:79-84 | a DELETE removes every copy of the id, keeps other ids with their counts, and is a no-op when the id is absent |
| `IdLists.PushTwiceDuplicates` | pages/api/like.ts:49-52 | two pushes leave two more copies: duplicates are not prevented |
| `IdLists.UpdatedIds` | pages/api/like.ts:46-93 | the list written back: after POST the id is present, after DELETE it is absent, any other method leaves the list as it was, and no other id appears or disappears |
| `ServerAuth.Authenticate` | libs/serverAuth.ts:10-35 | fails with "Not signed in" exactly when the email is missing, is empty, or matches no stored user; otherwise returns a stored user with that email |
| `Common.IsId` | pages/api/like.ts:29-31 | the id guard, which rejects a falsy or non-string id, passes exactly the non-empty strings; `undefined`, `""` and every non-string JSON value are rejected |
| `Store.Patch` | pages/api/edit.ts:38-44 | a given field value replaces the stored one; `undefined` keeps the stored value |
| `Store.SetProfile` | pages/api/edit.ts:34-45 | the update by id writes `name`, `username` and the three optional fields of that user (each patched), and leaves its id, email, `followingIds`, `hasNotification`, every other user and every other table as they were |
| `ServerAuth.AuthenticateFindsOwner` | libs/serverAuth.ts:21-34 | when emails are unique, a session for a stored user's email signs in as exactly that user |
| `Store.Database.UpdateLikedIds` | pages/api/like.ts:96-103 | the post update writes only the post's `likedIds` and returns the updated post |
| `Store.Database.UpdateFollowingIds` | pages/api/follow.ts:87-94 | the user update writes only the user's `followingIds` and returns the updated user |
| `Store.Database.RaiseNotificationFlag` | pages/api/like.ts:72-79 | sets only that user's `hasNotification` to true |
| `Store.Database.UpdateProfile` | pages/api/edit.ts:34-45 | writes only the five profile fields of that user |
| `Store.Database.CreatePost` | pages/api/posts/index.ts:21-26 | appends one post; a fresh id keeps post ids unique |
| `Store.Database.CreateComment` | pages/api/comments.ts:26-32 | appends one comment |
| `Store.Database.CreateNotification` | pages/api/like.ts:64-69 | appends one notification |
| `Notifications.Notify` | pages/api/like.ts:53-84 | the block never touches posts or comments, and never changes any user's id or email |
| `Notifications.NotifyDelivers` | pages/api/follow.ts:53-75 | with no fault and a stored target: exactly one notification with the body for the target, and only the target's flag is raised |
| `Notifications.NotifyFaultSwallowed` | pages/api/follow.ts:54-74 | a failure changes no user; a failure before the create changes nothing; a failure after it leaves the notification row |
| `Notifications.NotifyUnknownTarget` | pages/api/like.ts:63-83 | a target that is not stored still gets its row, but no flag is raised |
| `Notifications.NotifyOnlyRaisesFlags` | pages/api/comments.ts:44-64 | whatever happens, each user record stays the same or only gains `hasNotification = true` |
| `Notifications.NotifyBestEffort` | pages/api/comments.ts:34-65 | the block run against the database leaves the store exactly as `Notify` says |
| `LikeApi.Respond` | pages/api/like.ts:11-113 | 405 exactly for a method other than POST or DELETE; a rejection leaves the store as it was; user ids and emails, post ids and comments never change; a 200 reply is the post as stored |
| `LikeApi.Handler` | pages/api/like.ts:11-113 | the handler's new store and reply are exactly those of `LikeApi.Respond` |
| `LikeApi.LikeRejects` | pages/api/like.ts:16-43 | 405 for any method but POST or DELETE; 400 exactly for a failed sign-in, a bad `postId` or an unknown post; neither changes the store |
| `LikeApi.LikeAppends` | pages/api/like.ts:45-106 | a like sets that post's `likedIds` to the old list plus the user's id; other posts and comments are unchanged; the reply is the updated post |
| `LikeApi.UnlikeRemoves` | pages/api/like.ts:87-106 | an unlike removes every copy of the user's id from that post only; no notification is sent and nothing else changes |
| `LikeApi.LikeNotifiesAuthor` | pages/api/like.ts:54-84 | a like on a post with a stored author adds one "Someone liked your tweet!" notification for the author and raises only the author's flag |
| `LikeApi.LikeIgnoresNotifyFault` | pages/api/like.ts:54-106 | a failure in the notification block changes neither the posts nor the reply |
| `LikeApi.LikeThenUnlike` | pages/api/like.ts:46-103 | like then unlike by a user who had not liked the post restores the post table |
| `FollowApi.Respond` | pages/api/follow.ts:11-104 | 405 exactly for a method other than POST or DELETE; a rejection leaves the store as it was; user ids and emails, posts and comments never change; a 200 reply is the actor's record as stored |
| `FollowApi.Handler` | pages/api/follow.ts:11-104 | the handler's new store and reply are exactly those of `FollowApi.Respond` |
| `FollowApi.FollowRejects` | pages/api/follow.ts:16-43 | 405 for any method but POST or DELETE; 400 exactly for a failed sign-in, a bad `userId` or an unknown user; neither changes the store |
| `FollowApi.FollowAppends` | pages/api/follow.ts:45-97 | a follow appends the target id to the actor's `followingIds`; no other user's list changes, not even the target's; users change only in that list and in flags; the reply is the actor's record |
| `FollowApi.FollowNotifiesTarget` | pages/api/follow.ts:53-75 | a follow adds one "Someone followed you!" notification for the target and raises the target's flag and no other |
| `FollowApi.UnfollowRemoves` | pages/api/follow.ts:78-97 | an unfollow removes every copy of the target id from the actor's list and changes nothing else |
| `FollowApi.FollowIgnoresNotifyFault` | pages/api/follow.ts:54-97 | a notification failure changes neither whether the request succeeds nor any `followingIds` |
| `FollowApi.FollowThenUnfollow` | pages/api/follow.ts:46-94 | follow then unfollow of a user not already followed restores the actor's `followingIds` |
| `FollowApi.SelfFollowAccepted` | pages/api/follow.ts:28-75 | following oneself succeeds, appends one's own id and raises one's own flag |
| `CommentsApi.Respond` | pages/api/comments.ts:5-73 | 405 exactly for a method other than POST; a rejection leaves the store as it was; user ids and emails and posts never change; on 200 exactly one comment, the one replied, is appended |
| `CommentsApi.Handler` | pages/api/comments.ts:5-73 | the handler's new store and reply are exactly those of `CommentsApi.Respond` |
| `CommentsApi.CommentRejects` | pages/api/comments.ts:10-23 | 405 for any method but POST; 400 exactly for a failed sign-in or a bad `postId`; neither creates a comment or a notification |
| `CommentsApi.CommentCreated` | pages/api/comments.ts:25-68 | the stored comment, which is also the reply, has the user's id, the query `postId` and the unvalidated body, whatever the notification block does |
| `CommentsApi.CommentNotifiesAuthor` | pages/api/comments.ts:35-61 | on a post with a stored author, adds one "Someone replied on your tweet!" notification for the author and raises the author's flag, even when the author is the commenter |
| `CommentsApi.CommentOnMissingPost` | pages/api/comments.ts:20-44 | a comment on a post id that names no post is still stored, and nobody is notified |
| `EditApi.Respond` | pages/api/edit.ts:11-55 | 405 exactly for a method other than PATCH; a rejection leaves the store as it was; user ids and emails, posts, comments and notifications never change; a 200 reply is the user's record as stored |
| `EditApi.Handler` | pages/api/edit.ts:11-55 | the handler's new store and reply are exactly those of `EditApi.Respond` |
| `EditApi.EditRejects` | pages/api/edit.ts:16-31 | 405 for any method but PATCH; 400 exactly for a failed sign-in or a missing or empty `name` or `username`; neither changes the store |
| `EditApi.EditWritesProfile` | pages/api/edit.ts:33-48 | the user's `name`, `username`, `bio`, `profileImage` and `coverImage` take the request values; id, email, `followingIds`, `hasNotification`, other users and other tables are unchanged; the reply is the updated record |
| `PostsApi.InsertByDate` | pages/api/posts/index.ts:50-52 | inserting into a newest-first list keeps it newest first and adds exactly that post |
| `PostsApi.SortNewestFirst` | pages/api/posts/index.ts:61-63 | the result is ordered by `createdAt`, non-increasing, and is a permutation of the input |
| `PostsApi.ByAuthor` | pages/api/posts/index.ts:42-45 | keeps exactly the posts whose `userId` matches, each as often as it is stored |
| `PostsApi.ListPosts` | pages/api/posts/index.ts:40-65 | with a non-empty string `userId`, exactly that user's posts; otherwise every post; newest first |
| `PostsApi.Respond` | pages/api/posts/index.ts:5-74 | 405 exactly for a method other than POST or GET; only an accepted POST changes the store, and it appends exactly the post replied; users and comments never change; a listing holds only stored posts |
| `PostsApi.Handler` | pages/api/posts/index.ts:5-74 | the handler's new store and reply are exactly those of `PostsApi.Respond` |
| `PostsApi.PostsRejects` | pages/api/posts/index.ts:9-17 | 405 for any method but POST or GET; 400 exactly for a POST without a signed-in user; neither changes the store |
| `PostsApi.CreateAddsOne` | pages/api/posts/index.ts:16-29 | a POST adds exactly one post, with the body, the current user as author and no likes, and replies with it |
| `PostsApi.GetLists` | pages/api/posts/index.ts:33-68 | a GET changes nothing and lists the matching posts, newest first |
| `UseLike.HasLiked` | hooks/useLike.ts:22-28 | true exactly when there is a user and a post, and the user's id occurs in the post's `likedIds` |
| `UseLike.ToggleLike` | hooks/useLike.ts:31-61 | with no user, only the login modal opens; otherwise the first effect is DELETE if liked, else POST; on success exactly four effects: the request, the post refresh, the posts refresh and the success toast; on failure exactly two: the request and the error toast |
| `UseLike.ToggleLikeFlips` | hooks/useLike.ts:41-47 | the request the hook picks, served by the like handler, flips `hasLiked` |
| `UseFollow.IsFollowing` | hooks/useFollow.ts:19-25 | true exactly when there is a user and `userId` occurs in its `followingIds` |
| `UseFollow.ToggleFollow` | hooks/useFollow.ts:28-58 | with no user, only the login modal opens; otherwise the first effect is DELETE if following, else POST; on success exactly four effects: the request, the current-user refresh, the fetched-user refresh and the success toast; on failure exactly two: the request and the error toast |
| `UseFollow.ToggleFollowFlips` | hooks/useFollow.ts:38-44 | the request the hook picks, served by the follow handler, flips `isFollowing` |
| `SeeMoreLess.Substring` | components/SeeMoreLess.tsx:30 | `substring(0, n)` is the prefix of length n, with n clamped into the text's bounds |
| `SeeMoreLess.DisplayedText` | components/SeeMoreLess.tsx:27-30 | expanded shows the full text; collapsed shows the text when it fits, else its first `maxLength` characters plus "..."; collapsed is never longer than `maxLength` + 3 |
| `SeeMoreLess.ToggleLabel` | components/SeeMoreLess.tsx:41 | the toggle text is a space followed by `lessText` when expanded and `moreText` when collapsed |
| `SeeMoreLess.Component.constructor` | components/SeeMoreLess.tsx:12-19 | `maxLength` defaults to 100 and the labels to "See More" and "See Less"; the component starts collapsed |
| `SeeMoreLess.Component.ToggleExpand` | components/SeeMoreLess.tsx:22-25 | flips `isExpanded`, so two toggles restore it |
| `SeeMoreLess.Component.Render` | components/SeeMoreLess.tsx:28-43 | the displayed text is `DisplayedText` of the state: the full text when expanded or short enough, else its first `maxLength` characters plus "..."; the toggle shows exactly when the text is longer than `maxLength`, labelled by `ToggleLabel` |

## Left out

- Registration, the current-user and user-list endpoints, the notification list endpoint (which clears the flag when read) and the post-by-id endpoint are not part of this model.
- The `include` of each post's author and comments in the GET listing is not modelled. The listing returns the post records.
- `CommentsApi.CommentOnMissingPost`: whether the database checks at create time that a comment's `postId` names a stored post is not modelled. The schema is not part of this model, so the lemma holds only if the database accepts a dangling `postId`; otherwise that create throws and the handler answers 400.
- Persistence failures on the main path are not modelled. Only the notification block can fail. A real update or create that throws would make the handler answer 400.
- Type checks that the persistence layer makes on written values are not modelled. A missing or non-string post or comment `body` is one case. A non-string profile field is another. Bodies are plain strings, and profile fields are strings or `undefined`. `null` profile fields are not represented.
- A unique index on `username`, if the schema declares one, is not modelled. The schema is not part of this model, so an edit to a taken username is accepted here.
- Concurrency is not modelled. Requests run one after another, so the race between two concurrent likes or follows is left out. The duplicates it causes are still reachable, by two requests in sequence.
- Session decoding (NextAuth, JWT) is not modelled. A session is just the email it carries.
- Ids and `createdAt` timestamps come in as parameters. `PostsApi.Handler` requires the new post's id to be unused, because the database hands out fresh ids.
- `PostsApi.SortNewestFirst`: posts with equal `createdAt` come out in table order. The database leaves their order unspecified, so the lemmas state only the ordering and the contents.
- A stored `likedIds` or `followingIds` of `null` is not modelled. The `|| []` fallback treats it as empty, which is the same as the empty list in the model.
- Logging, toasts' texts, HTTP plumbing beyond the status and the JSON body, date formatting and image upload are not modelled.
- Client caching (SWR) is not modelled: the hooks take the cached post or user as a parameter, and whether it is stale is not modelled.
- In `SeeMoreLess`, string lengths count characters, not UTF-16 code units. `maxLength` is an integer, so fractional, `NaN` and `null` values are not modelled. The click's `stopPropagation` is DOM behaviour and is left out.

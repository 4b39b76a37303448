/** The `useLike` hook: whether the signed-in user has liked a post, and
    what toggling the like does. The requests and refreshes are effects;
    the request's outcome is a parameter. */
module UseLike {
  import opened Common
  import opened Entities
  import opened IdLists
  import opened ServerAuth
  import opened Store
  import LikeApi

  const LikePath: string := "/api/like"

  /** `(fetchedPost?.likedIds || []).includes(currentUser?.id)`. */
  function HasLiked(fetchedPost: Option<Post>, currentUser: Option<User>): (r: bool)
    ensures r <==> fetchedPost.Some? && currentUser.Some? && currentUser.value.id in fetchedPost.value.likedIds
  {
    var list := if fetchedPost.Some? then fetchedPost.value.likedIds else [];
    currentUser.Some? && Includes(list, currentUser.value.id)
  }

  /** `toggleLike`: without a user, only the login modal; otherwise DELETE
      when liked and POST when not, followed by both refreshes and a success
      toast if the request succeeds, or an error toast if it fails. */
  function ToggleLike(currentUser: Option<User>, hasLiked: bool, postId: Id, requestSucceeds: bool): (effects: seq<Effect>)
    ensures currentUser.None? ==> effects == [OpenLoginModal]
    ensures currentUser.Some? ==>
      |effects| >= 2 && effects[0] == Send(if hasLiked then DELETE else POST, LikePath, postId)
    ensures RefreshPost in effects <==> currentUser.Some? && requestSucceeds
    ensures RefreshPosts in effects <==> currentUser.Some? && requestSucceeds
    ensures ToastSuccess in effects <==> currentUser.Some? && requestSucceeds
    ensures ToastError in effects <==> currentUser.Some? && !requestSucceeds
    ensures currentUser.Some? ==> effects[|effects| - 1] == if requestSucceeds then ToastSuccess else ToastError
    ensures currentUser.Some? ==> |effects| == if requestSucceeds then 4 else 2
    ensures currentUser.Some? && requestSucceeds ==> effects[1] == RefreshPost
    ensures forall i :: 0 < i < |effects| ==> !effects[i].Send? && !effects[i].OpenLoginModal?
  {
    if currentUser.None? then [OpenLoginModal]
    else
      var request := if hasLiked then Send(DELETE, LikePath, postId) else Send(POST, LikePath, postId);
      if requestSucceeds then [request, RefreshPost, RefreshPosts, ToastSuccess]
      else [request, ToastError]
  }

  /** The request the hook picks, served by the like handler on the stored
      post, yields a post whose `hasLiked` is the opposite of before. */
  lemma ToggleLikeFlips(t: Tables, sessionEmail: Option<string>, u: User, i: nat, fault: Fault, now: int)
    requires DistinctPostIds(t.posts) && i < |t.posts| && t.posts[i].id != ""
    requires Authenticate(t.users, sessionEmail) == SignedIn(u)
    ensures var liked := HasLiked(Some(t.posts[i]), Some(u));
      var request := ToggleLike(Some(u), liked, t.posts[i].id, true)[0];
      var (t', r) := LikeApi.Respond(t, request.verb, sessionEmail, Str(request.id), fault, now);
      && r.Ok? && t'.posts[i] == r.body
      && HasLiked(Some(r.body), Some(u)) == !liked
  {
    if u.id in t.posts[i].likedIds {
      LikeApi.UnlikeRemoves(t, sessionEmail, u, i, fault, now);
    } else {
      LikeApi.LikeAppends(t, sessionEmail, u, i, fault, now);
    }
  }
}

/** The `useFollow` hook: whether the signed-in user follows a user, and
    what toggling the follow does. */
module UseFollow {
  import opened Common
  import opened Entities
  import opened IdLists
  import opened ServerAuth
  import opened Store
  import FollowApi

  const FollowPath: string := "/api/follow"

  /** `(currentUser?.followingIds || []).includes(userId)`. */
  function IsFollowing(currentUser: Option<User>, userId: Id): (r: bool)
    ensures r <==> currentUser.Some? && userId in currentUser.value.followingIds
  {
    var list := if currentUser.Some? then currentUser.value.followingIds else [];
    Includes(list, userId)
  }

  /** `toggleFollow`: without a user, only the login modal; otherwise DELETE
      when following and POST when not, followed by both refreshes and a
      success toast if the request succeeds, or an error toast if it fails. */
  function ToggleFollow(currentUser: Option<User>, isFollowing: bool, userId: Id, requestSucceeds: bool): (effects: seq<Effect>)
    ensures currentUser.None? ==> effects == [OpenLoginModal]
    ensures currentUser.Some? ==>
      |effects| >= 2 && effects[0] == Send(if isFollowing then DELETE else POST, FollowPath, userId)
    ensures RefreshCurrentUser in effects <==> currentUser.Some? && requestSucceeds
    ensures RefreshFetchedUser in effects <==> currentUser.Some? && requestSucceeds
    ensures ToastSuccess in effects <==> currentUser.Some? && requestSucceeds
    ensures ToastError in effects <==> currentUser.Some? && !requestSucceeds
    ensures currentUser.Some? ==> effects[|effects| - 1] == if requestSucceeds then ToastSuccess else ToastError
    ensures currentUser.Some? ==> |effects| == if requestSucceeds then 4 else 2
    ensures currentUser.Some? && requestSucceeds ==> effects[1] == RefreshCurrentUser
    ensures forall i :: 0 < i < |effects| ==> !effects[i].Send? && !effects[i].OpenLoginModal?
  {
    if currentUser.None? then [OpenLoginModal]
    else
      var request := if isFollowing then Send(DELETE, FollowPath, userId) else Send(POST, FollowPath, userId);
      if requestSucceeds then [request, RefreshCurrentUser, RefreshFetchedUser, ToastSuccess]
      else [request, ToastError]
  }

  /** The request the hook picks, served by the follow handler, yields an
      actor record whose `isFollowing` is the opposite of before. */
  lemma ToggleFollowFlips(t: Tables, sessionEmail: Option<string>, a: nat, m: nat, fault: Fault, now: int)
    requires DistinctUserIds(t.users) && a < |t.users| && m < |t.users| && t.users[m].id != ""
    requires Authenticate(t.users, sessionEmail) == SignedIn(t.users[a])
    ensures var following := IsFollowing(Some(t.users[a]), t.users[m].id);
      var request := ToggleFollow(Some(t.users[a]), following, t.users[m].id, true)[0];
      var (t', r) := FollowApi.Respond(t, request.verb, sessionEmail, Str(request.id), fault, now);
      && r.Ok?
      && IsFollowing(Some(r.body), t.users[m].id) == !following
  {
    if t.users[m].id in t.users[a].followingIds {
      FollowApi.UnfollowRemoves(t, sessionEmail, a, m, fault, now);
    } else {
      FollowApi.FollowAppends(t, sessionEmail, a, m, fault, now);
    }
  }
}

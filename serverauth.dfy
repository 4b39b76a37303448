/** `serverAuth`: resolve the session's email to a stored user. The session
    itself comes from the authentication library; here it is reduced to the
    email it carries, if any. */
module ServerAuth {
  import opened Common
  import opened Entities

  const NotSignedIn: string := "Not signed in"

  datatype Auth = SignedIn(currentUser: User) | Failed(message: string)

  function Authenticate(users: seq<User>, sessionEmail: Option<string>): (r: Auth)
    ensures r.Failed? ==> r.message == NotSignedIn
    ensures r.Failed? <==>
      sessionEmail.None? || sessionEmail.value == "" ||
      forall j :: 0 <= j < |users| ==> users[j].email != sessionEmail
    ensures r.SignedIn? ==> r.currentUser in users && r.currentUser.email == sessionEmail
  {
    if sessionEmail.None? || sessionEmail.value == "" then Failed(NotSignedIn)
    else match FindUserByEmail(users, sessionEmail.value)
      case None => Failed(NotSignedIn)
      case Some(i) => SignedIn(users[i])
  }

  /** With unique emails, a session for a stored user's email signs in as
      exactly that user. */
  lemma AuthenticateFindsOwner(users: seq<User>, k: nat)
    requires DistinctEmails(users) && k < |users|
    requires users[k].email.Some? && users[k].email.value != ""
    ensures Authenticate(users, users[k].email) == SignedIn(users[k])
  {
    var r := FindUserByEmail(users, users[k].email.value);
    assert r.Some?;
    assert r.value <= k;
    assert r.value == k;
  }

  /** Writes that keep every id and email keep who a session signs in as,
      up to the fields those writes changed. */
  lemma AuthenticateSameKeys(a: seq<User>, b: seq<User>, sessionEmail: Option<string>)
    requires SameKeys(a, b)
    ensures Authenticate(a, sessionEmail).SignedIn? == Authenticate(b, sessionEmail).SignedIn?
    ensures Authenticate(a, sessionEmail).SignedIn? ==>
      Authenticate(a, sessionEmail).currentUser.id == Authenticate(b, sessionEmail).currentUser.id
  {
    if sessionEmail.Some? {
      SameKeysFindUserByEmail(a, b, sessionEmail.value);
    }
  }
}

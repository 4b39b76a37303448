/** Vocabulary shared by the handlers, the hooks and the store: optional
    values, request arguments as the handlers inspect them, replies, and
    the points at which a best-effort notification can fail. */
module Common {

  /** Record identifiers (database object ids) are opaque strings. */
  type Id = string

  datatype Option<+T> = None | Some(value: T)

  /** The request methods the handlers compare `req.method` against. */
  const GET: string := "GET"
  const POST: string := "POST"
  const DELETE: string := "DELETE"
  const PATCH: string := "PATCH"

  /** A value read from a request body or query string: `undefined`, a
      string, or any other JSON value (null, a number, an array, ...), of
      which only its JavaScript truthiness matters to the handlers. */
  datatype Arg = Undefined | Str(s: string) | NonString(truthy: bool)

  /** JavaScript truthiness of an argument: `undefined` and `""` are falsy. */
  function Truthy(a: Arg): bool {
    match a
    case Undefined => false
    case Str(s) => s != ""
    case NonString(truthy) => truthy
  }

  /** The negation of the id guard `!id || typeof id !== "string"`: an
      argument passes exactly when it is a non-empty string. */
  function IsId(a: Arg): (r: bool)
    ensures r <==> a.Str? && a.s != ""
  {
    Truthy(a) && a.Str?
  }

  /** A handler's answer: status 200 with a JSON body (`Ok`), or an empty
      400 (`BadRequest`) or 405 (`MethodNotAllowed`). */
  datatype Reply<+T> = Ok(body: T) | BadRequest | MethodNotAllowed

  /** Where the "NOTIFICATION PART" of a handler throws, if it does: not at
      all, before the notification row is created (the post re-read or the
      create itself), or after it (the update of the target's flag). */
  datatype Fault = NoFault | FailsBeforeCreate | FailsAfterCreate

  /** What a client hook's toggle does, in order: open the login modal,
      send a request (method, path, id in the JSON body), refresh a cached
      query, or show a toast. */
  datatype Effect =
    | OpenLoginModal
    | Send(verb: string, path: string, id: Id)
    | RefreshPost
    | RefreshPosts
    | RefreshCurrentUser
    | RefreshFetchedUser
    | ToastSuccess
    | ToastError
}

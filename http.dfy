/** Values shared by both routers: optional values, identifiers, and the
    responses a handler can send back to the client. */
module Http {

  datatype Option<+T> = None | Some(value: T)

  /** Identifier of a stored record (a gallery or a photo). The store hands
      them out; they are compared for equality only. */
  type Id = nat

  /** Identifier of an account, as attached to the request by the bearer
      authentication middleware and stamped on records as their owner. */
  type UserId = string

  /** The one error text both routers report (route/route-gallery.js:9). */
  const AuthorizationFailed: string := "Authorization Failed"

  /** What a handler serialises: a JSON record, JSON null, a JSON array of
      ids, an empty body (sendStatus) or an error message. */
  datatype Body<+R> =
    | Json(record: R)
    | JsonNull
    | JsonIds(ids: seq<Id>)
    | Empty
    | Message(text: string)

  /** A response sent to the client, or no response at all, which is what
      happens when a handler's promise chain fails without a handler. */
  datatype Response<+R> =
    | Response(status: nat, body: Body<R>)
    | NoResponse

  /** The response of the bearer middleware and of the error handler for
      every authentication or authorization failure. */
  function Denied<R>(): Response<R>
  {
    Response(401, Message(AuthorizationFailed))
  }

  /** The response of `res.sendStatus(204)` after a successful update or removal. */
  function NoContent<R>(): Response<R>
  {
    Response(204, Empty)
  }

  /** `word` occurs in `text` starting at position `i`. */
  predicate OccursAt(text: string, word: string, i: nat)
  {
    i + |word| <= |text| && text[i..i + |word|] == word
  }

  /** `word` occurs somewhere inside `text`. */
  ghost predicate Mentions(text: string, word: string)
  {
    exists i: nat :: OccursAt(text, word, i)
  }

  /** A denial is a 401 whose body contains the word "Authorization", which
      is what clients match on. */
  lemma DeniedMentionsAuthorization<R>()
    ensures Denied<R>().Response? && Denied<R>().status == 401
    ensures Mentions(Denied<R>().body.text, "Authorization")
  {
    assert OccursAt(AuthorizationFailed, "Authorization", 0);
  }
}

/** The parts of an Express request/response exchange the middleware touches. */
module Http {
  import opened Wrappers
  import opened Users

  /** One entry of a validation error's `details`. */
  datatype Detail = Detail(field: string, message: string)

  /** A JSON error response `{ success: false, error, details }` with its status code. */
  datatype ErrorReply = ErrorReply(status: nat, error: string, details: seq<Detail>)

  /** What a middleware does with a request: `next()`, `next(error)`, or answer it. */
  datatype Step = Next | NextError(error: string) | Respond(reply: ErrorReply)

  /** One request in flight: `req.user`, the calls of `next`, and the error responses sent. */
  class Exchange {
    var user: Option<PublicUser>
    var nextCalls: seq<Option<string>>
    var replies: seq<ErrorReply>

    constructor ()
      ensures user == None && nextCalls == [] && replies == []
    {
      user := None;
      nextCalls := [];
      replies := [];
    }
  }
}

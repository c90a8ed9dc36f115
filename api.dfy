/**
 * The responses the handlers send: a status and, in place of the JSON
 * envelope, what it carries (the validation errors, one message, one
 * document, or the owner's documents).
 */
module Api {
  import opened Validation
  import opened Storage

  datatype Payload<R> =
    | Invalid(errors: seq<FieldError>)
    | Message(text: string)
    | One(id: Id, doc: Doc<R>)
    | Many(docs: map<Id, Doc<R>>)

  datatype Response<R> = Response(status: nat, payload: Payload<R>)

  const ServerError: string := "Server Error"

  /** `res.status(500).json({ errors: [{ msg: 'Server Error' }] })`. */
  function ServerFailure<R>(): (r: Response<R>)
    ensures r.status == 500 && r.payload == Message(ServerError)
  {
    Response(500, Message(ServerError))
  }

  /** `res.status(400).json({ errors: errors.array() })`. */
  function Rejected<R>(body: Body, rules: seq<Rule>): (r: Response<R>)
    requires !Satisfies(body, rules)
    ensures r.status == 400 && r.payload.Invalid? && r.payload.errors != []
    ensures r.payload.errors == Validate(body, rules)
  {
    Response(400, Invalid(Validate(body, rules)))
  }

  /**
   * The `catch` of a route that checks `error.kind === 'ObjectId'`: a failed
   * cast of the path id is "not found", anything else a server error.
   */
  function CatchNotFoundOnCast<R>(e: Thrown, notFound: string): (r: Response<R>)
    ensures r.status == 404 <==> e == CastError
    ensures r.status == 404 ==> r.payload == Message(notFound)
    ensures r.status != 404 ==> r == ServerFailure()
  {
    if e == CastError then Response(404, Message(notFound)) else ServerFailure()
  }
}

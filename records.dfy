/** The records of the trivia store and the outcomes of its HTTP handlers.

    A question and a category are stored rows; `format()` of the object mapper
    turns a row into a JSON mapping with the same fields, so the model uses the
    record itself as its formatted form. */
module Records {

  datatype Option<+T> = None | Some(value: T)

  /** A stored question row: {id, question, answer, category, difficulty}. */
  datatype Question = Question(id: int, question: string, answer: string, category: int, difficulty: int)

  /** A stored category row: {id, type}. `type` is a Dafny keyword, hence `kind`. */
  datatype Category = Category(id: int, kind: string)

  /** The four error handlers registered by the application. */
  datatype Error = BadRequest | NotFound | Unprocessable | InternalError

  /** What a handler answers: a success with its status code and payload, or one
      of the errors, whose body is the fixed payload of `ErrorBody`. */
  datatype Outcome<+T> = Ok(code: int, body: T) | Fail(error: Error)

  /** The constant JSON body of an error handler: {success: false, code, message}. */
  datatype ErrorPayload = ErrorPayload(success: bool, code: int, message: string)

  function StatusCode(e: Error): int
  {
    match e
    case BadRequest => 400
    case NotFound => 404
    case Unprocessable => 422
    case InternalError => 500
  }

  function ErrorBody(e: Error): (p: ErrorPayload)
    ensures !p.success && p.code == StatusCode(e)
  {
    match e
    case BadRequest => ErrorPayload(false, 400, "bad request")
    case NotFound => ErrorPayload(false, 404, "resource not found")
    case Unprocessable => ErrorPayload(false, 422, "unprocessable")
    case InternalError => ErrorPayload(false, 500, "internal server Error")
  }

  /** Question ids are the table's primary key: no two rows share one. */
  predicate UniqueIds(qs: seq<Question>)
  {
    forall i, j :: 0 <= i < j < |qs| ==> qs[i].id != qs[j].id
  }
}

/** The HTTP layer's outcomes: a handler either returns a body or raises an
    error that FastAPI turns into a status code and a JSON "detail". */
module Http {

  datatype Option<+T> = None | Some(value: T)

  /** An error response. HttpError is an HTTPException raised by a handler;
      ValidationError is pydantic rejecting a request body field, which
      FastAPI answers with 422 and the location of the field. */
  datatype ApiError =
    | HttpError(code: nat, detail: string)
    | ValidationError(loc: seq<string>)
  {
    function Status(): nat
    {
      match this
      case HttpError(c, _) => c
      case ValidationError(_) => 422
    }
  }

  /** What an endpoint answers: a 200 body or an error. */
  datatype Result<+T> = Ok(value: T) | Err(error: ApiError)

  const DuplicateUsername: ApiError := HttpError(400, "Username already exists")
  const InvalidCredentials: ApiError := HttpError(401, "Invalid credentials")
  const InvalidToken: ApiError := HttpError(401, "Invalid token")
  const TaskNotFound: ApiError := HttpError(404, "Task not found")
  const InvalidTaskStatus: ApiError := ValidationError(["body", "status"])
}

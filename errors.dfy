/**
 * The values the services throw, and the global error handler that turns any
 * of them into the JSON error response (src/app/middlewares/globalErrorHandler.ts).
 */
module Errors {
  import opened Wrappers

  /** The class of a thrown value, as the handler's `instanceof` tests see it. */
  datatype ErrorKind =
    | PrismaValidation                  // Prisma.PrismaClientValidationError
    | Zod                               // ZodError
    | PrismaKnownRequest(code: string)  // Prisma.PrismaClientKnownRequestError; P2025 is "record not found"
    | Api(statusCode: int)              // ApiError(statusCode, message)
    | PlainError                        // any other Error, such as the token library's
    | NotAnError                        // a thrown value that is not an Error at all

  /** A thrown value: its class, its `message` and its `stack` (None when it has none). */
  datatype Thrown = Thrown(kind: ErrorKind, message: string, stack: Option<string>)

  /** `error instanceof Error`: every class above derives from Error. */
  predicate IsError(e: Thrown) {
    !e.kind.NotAnError?
  }

  datatype ErrorMessage = ErrorMessage(path: string, message: string)

  /** What handleValidationError, handleZodError and handleClientError return. */
  datatype Simplified = Simplified(statusCode: int, message: string, errorMessages: seq<ErrorMessage>)

  /** The three class-specific handlers; their code is not part of this model, so they are parameters. */
  datatype Handlers = Handlers(
    validation: Thrown -> Simplified,
    zod: Thrown -> Simplified,
    client: Thrown -> Simplified)

  /** The JSON body sent with the status code. */
  datatype Response = Response(
    statusCode: int, success: bool, message: string, errorMessages: seq<ErrorMessage>, stack: Option<string>)

  const DefaultStatus := 500
  const DefaultMessage := "Something went wrong"

  /** `error?.message ? [{ path: '', message }] : []` */
  function MessageList(message: string): (r: seq<ErrorMessage>)
    ensures r == [] <==> message == ""
    ensures r != [] ==> r == [ErrorMessage("", message)]
  {
    if message != "" then [ErrorMessage("", message)] else []
  }

  /**
   * The if/else-if chain over the thrown value's class, tried in the source's
   * order; the first class that matches decides status, message and
   * errorMessages, and nothing matching leaves the defaults.
   */
  function GlobalErrorHandler(e: Thrown, h: Handlers, env: string): (r: Response)
    ensures !r.success
    ensures r.stack == (if env != "production" then e.stack else None)
    ensures e.kind.PrismaValidation? ==> (r.statusCode, r.message, r.errorMessages) == (h.validation(e).statusCode, h.validation(e).message, h.validation(e).errorMessages)
    ensures e.kind.Zod? ==> (r.statusCode, r.message, r.errorMessages) == (h.zod(e).statusCode, h.zod(e).message, h.zod(e).errorMessages)
    ensures e.kind.PrismaKnownRequest? ==> (r.statusCode, r.message, r.errorMessages) == (h.client(e).statusCode, h.client(e).message, h.client(e).errorMessages)
    ensures e.kind.Api? ==> r.statusCode == e.kind.statusCode
    ensures !IsError(e) || e.kind.PlainError? ==> r.statusCode == DefaultStatus
    ensures e.kind.Api? || e.kind.PlainError? ==> r.message == e.message && r.errorMessages == MessageList(e.message)
    ensures !IsError(e) ==> r.message == DefaultMessage && r.errorMessages == []
  {
    var s :=
      if e.kind.PrismaValidation? then h.validation(e)
      else if e.kind.Zod? then h.zod(e)
      else if e.kind.PrismaKnownRequest? then h.client(e)
      else if e.kind.Api? then Simplified(e.kind.statusCode, e.message, MessageList(e.message))
      else if IsError(e) then Simplified(DefaultStatus, e.message, MessageList(e.message))
      else Simplified(DefaultStatus, DefaultMessage, []);
    Response(s.statusCode, false, s.message, s.errorMessages, if env != "production" then e.stack else None)
  }

  /** An ApiError is also an Error, but its own branch comes first: its status code is kept, not replaced by 500. */
  lemma ApiErrorBeforeError(e: Thrown, h: Handlers, env: string)
    requires e.kind.Api? && e.kind.statusCode != DefaultStatus
    ensures IsError(e)
    ensures GlobalErrorHandler(e, h, env).statusCode != DefaultStatus
  {
  }
}

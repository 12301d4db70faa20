/** The application's exceptions and GlobalExceptionHandler, the advice that turns an
    exception escaping a REST handler into a status code and a text body. */
module Exceptions {
  import opened Types

  const OK := 200
  const NOT_FOUND := 404
  const INTERNAL_SERVER_ERROR := 500

  const UNEXPECTED_ERROR_PREFIX := "An unexpected error occurred: "

  /** The exception classes the handler tells apart. Everything without a handler of its
      own (UserAlreadyExistsException, a failed @Valid check, library exceptions) is
      caught by the handler for Exception. */
  datatype Kind =
    | ChatRoomNotFound
    | UserNotFound
    | UserAlreadyExists
    | MethodArgumentNotValid
    | OtherException

  /** getMessage() may be null, hence the Option. */
  datatype Exception = Exception(kind: Kind, message: Option<string>)

  datatype ErrorResponse = ErrorResponse(status: int, body: Option<string>)

  /** Java's string concatenation writes a null reference as "null". */
  function MessageText(message: Option<string>): string {
    match message
    case Some(text) => text
    case None => "null"
  }

  /** Which handler Spring selects: the most specific @ExceptionHandler that matches. */
  predicate HasNotFoundHandler(e: Exception) {
    e.kind == ChatRoomNotFound || e.kind == UserNotFound
  }

  /** handleChatRoomNotFoundException, handleUserNotFoundException and handleGeneralException. */
  function HandleException(e: Exception): (r: ErrorResponse)
    ensures r.status == NOT_FOUND || r.status == INTERNAL_SERVER_ERROR
    ensures r.status == NOT_FOUND <==> HasNotFoundHandler(e)
    ensures HasNotFoundHandler(e) ==> r.body == e.message
    ensures !HasNotFoundHandler(e) ==> r.body == Some(UNEXPECTED_ERROR_PREFIX + MessageText(e.message))
  {
    match e.kind
    case ChatRoomNotFound => ErrorResponse(NOT_FOUND, e.message)
    case UserNotFound => ErrorResponse(NOT_FOUND, e.message)
    case _ => ErrorResponse(INTERNAL_SERVER_ERROR, Some(UNEXPECTED_ERROR_PREFIX + MessageText(e.message)))
  }

  /** UserAlreadyExistsException, if one were raised, has no handler of its own and would
      be answered as an unexpected error, with the prefix in front of its message. Nothing
      in the code raises it: signup saves the new user with an upsert. */
  lemma UserAlreadyExistsIsServerError(message: string)
    ensures HandleException(Exception(UserAlreadyExists, Some(message)))
         == ErrorResponse(INTERNAL_SERVER_ERROR, Some(UNEXPECTED_ERROR_PREFIX + message))
  {
  }

  /** A 500 body always begins with the fixed prefix, and the message that follows it
      can be read back from the body: two exceptions with different message texts never
      produce the same 500 body. */
  lemma ServerErrorBodyDeterminesMessage(e1: Exception, e2: Exception)
    requires !HasNotFoundHandler(e1) && !HasNotFoundHandler(e2)
    requires HandleException(e1) == HandleException(e2)
    ensures MessageText(e1.message) == MessageText(e2.message)
  {
    var b1 := UNEXPECTED_ERROR_PREFIX + MessageText(e1.message);
    var b2 := UNEXPECTED_ERROR_PREFIX + MessageText(e2.message);
    assert b1 == b2;
    assert MessageText(e1.message) == b1[|UNEXPECTED_ERROR_PREFIX|..];
    assert MessageText(e2.message) == b2[|UNEXPECTED_ERROR_PREFIX|..];
  }
}

/**
 * The Express error handler: the single place where a thrown value becomes an
 * HTTP status and a `{ message }` body.
 */
module ErrorHandler {
  import opened Wrappers
  import opened Strings
  import opened Http

  /** The one response the handler writes: `res.status(status).json({ message })`. */
  datatype Response = Response(status: int, message: Option<string>)

  /** `err.message || fallback`. */
  function MessageOr(message: Option<string>, fallback: string): string {
    if Truthy(message) then message.value else fallback
  }

  /** The statuses the handler can produce. */
  predicate KnownStatus(status: int) {
    status == 400 || status == 401 || status == 403 || status == 404 || status == 500
  }

  /** The `switch (err.name)` of the handler. */
  function Handle(err: Error): (r: Response)
    ensures KnownStatus(r.status)
    ensures r.message.None? ==> err.name == "MulterError" && err.message.None?
    ensures r.status == 500 <==> err.name !in ["SequelizeValidationError", "SequelizeUniqueConstraintError",
      "BadRequest", "Unauthorized", "JsonWebTokenError", "Forbidden", "NotFound", "MulterError"]
  {
    if err.name == "SequelizeValidationError" || err.name == "SequelizeUniqueConstraintError" then
      Response(400, Some(Join(err.errors, ", ")))
    else if err.name == "BadRequest" then
      Response(400, Some(MessageOr(err.message, "Bad Request")))
    else if err.name == "Unauthorized" || err.name == "JsonWebTokenError" then
      Response(401, Some(MessageOr(err.message, "Unauthorized")))
    else if err.name == "Forbidden" then
      Response(403, Some(MessageOr(err.message, "Forbidden")))
    else if err.name == "NotFound" then
      Response(404, Some(MessageOr(err.message, "Not Found")))
    else if err.name == "MulterError" then
      if err.code == Some("LIMIT_FILE_SIZE") then Response(400, Some("File too large. Maximum size is 5MB"))
      else if err.code == Some("LIMIT_UNEXPECTED_FILE") then Response(400, Some("Unexpected field"))
      else Response(400, err.message)
    else
      Response(500, Some(MessageOr(err.message, "Internal Server Error")))
  }

  /**
   * Sequelize validation and unique-constraint errors answer 400 with every
   * item message, in order, separated by ", ".
   */
  lemma SequelizeMessagesJoined(err: Error, i: nat)
    requires err.name == "SequelizeValidationError" || err.name == "SequelizeUniqueConstraintError"
    requires i < |err.errors|
    ensures Handle(err).status == 400 && Handle(err).message.Some?
    ensures var m := Handle(err).message.value; var o := Offset(err.errors, ", ", i);
      o + |err.errors[i]| <= |m| && m[o..o + |err.errors[i]|] == err.errors[i]
  {
    JoinPartAt(err.errors, ", ", i);
  }

  /** A single validation message comes back unchanged. */
  lemma SingleValidationMessage(m: string)
    ensures Handle(ValidationError([m])) == Response(400, Some(m))
  {
  }

  /**
   * The handled names whose answer is the error's own message when it has one
   * and a fixed default otherwise.
   */
  function DefaultMessage(name: string): Option<string> {
    if name == "BadRequest" then Some("Bad Request")
    else if name == "Unauthorized" || name == "JsonWebTokenError" then Some("Unauthorized")
    else if name == "Forbidden" then Some("Forbidden")
    else if name == "NotFound" then Some("Not Found")
    else if name in ["SequelizeValidationError", "SequelizeUniqueConstraintError", "MulterError"] then None
    else Some("Internal Server Error")
  }

  /** The status each name maps to, as the error taxonomy lists it. */
  function StatusOf(name: string): int {
    if name in ["SequelizeValidationError", "SequelizeUniqueConstraintError", "BadRequest", "MulterError"] then 400
    else if name in ["Unauthorized", "JsonWebTokenError"] then 401
    else if name == "Forbidden" then 403
    else if name == "NotFound" then 404
    else 500
  }

  /** The status depends on the name alone. */
  lemma StatusByName(err: Error)
    ensures Handle(err).status == StatusOf(err.name)
  {
  }

  /**
   * For every name with a default, a present message is passed through and an
   * absent (or empty) one is replaced by the default.
   */
  lemma MessageOrDefault(err: Error)
    requires DefaultMessage(err.name).Some?
    ensures Truthy(err.message) ==> Handle(err).message == err.message
    ensures !Truthy(err.message) ==> Handle(err).message == DefaultMessage(err.name)
  {
  }

  /**
   * A `JsonWebTokenError` without a message answers 401 "Unauthorized"; the
   * handler never produces the text "Invalid token" on its own.
   */
  lemma BareJsonWebTokenError()
    ensures Handle(Error("JsonWebTokenError", None, None, [])) == Response(401, Some("Unauthorized"))
  {
  }

  /** Multer errors answer 400; two codes have fixed texts, any other passes the message through. */
  lemma MulterMessages(err: Error)
    requires err.name == "MulterError"
    ensures Handle(err).status == 400
    ensures err.code == Some("LIMIT_FILE_SIZE") ==> Handle(err).message == Some("File too large. Maximum size is 5MB")
    ensures err.code == Some("LIMIT_UNEXPECTED_FILE") ==> Handle(err).message == Some("Unexpected field")
    ensures err.code != Some("LIMIT_FILE_SIZE") && err.code != Some("LIMIT_UNEXPECTED_FILE") ==>
      Handle(err).message == err.message
  {
  }
}

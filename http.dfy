/**
 * What the server's handlers throw and send. Controllers throw plain objects
 * `{ name, message }`; Sequelize throws errors that also carry an `errors`
 * list; multer throws errors that also carry a `code`.
 */
module Http {
  import opened Wrappers

  /** The fields of a thrown value that the error handler reads. */
  datatype Error = Error(name: string, message: Option<string>, code: Option<string>, errors: seq<string>)

  /** `throw { name, message }` as the controllers and the gate write it. */
  function Thrown(name: string, message: string): (e: Error)
    ensures e.name == name && e.message == Some(message) && e.code.None? && e.errors == []
  {
    Error(name, Some(message), None, [])
  }

  /**
   * A Sequelize validation failure: one message per failed rule, in attribute
   * order. Its own `message` text is not read by anything in the core.
   */
  function ValidationError(messages: seq<string>): (e: Error)
    ensures e.name == "SequelizeValidationError" && e.errors == messages
  {
    Error("SequelizeValidationError", None, None, messages)
  }

  /** A response `res.status(status).json({ message })` sent by a handler itself. */
  datatype Reply = Reply(status: int, message: string)
}

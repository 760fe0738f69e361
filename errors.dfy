/**
 * Errors as the controllers throw them and the central translation of src/middleware/errorHandler.ts
 * from an error to the response's status and `error` message.
 */
module Errors {
  import opened Wrappers

  /** The PostgreSQL driver's error as the handler reads it; "" stands for an absent property. */
  datatype PgError = PgError(code: string, detail: string, message: string)

  /**
   * CustomError: an Error with an optional `status` and `code`, and the `cause` / `original`
   * properties through which a database error is wrapped. A `status` of 0 stands for an absent
   * one and "" for an absent string: JavaScript treats both as false.
   */
  datatype CustomError = CustomError(status: int, name: string, message: string, code: string,
                                     cause: Option<PgError>, original: Option<PgError>)

  /** What a handler finally passes on: a value, or the error given to `next`. */
  datatype Outcome<+T> = Ok(value: T) | Thrown(error: CustomError)

  /** A response: its status and the `error` field of its JSON body. */
  datatype Reply = Reply(status: int, error: string)

  /** JavaScript `a || b` on strings. */
  function Or(a: string, b: string): (r: string)
    ensures r == a || r == b
    ensures r != "" <==> (a != "" || b != "")
  {
    if a != "" then a else b
  }

  /** `new Error(message)` with `status` and `name` assigned, as the controllers throw it. */
  function Raise(status: int, name: string, message: string): CustomError {
    CustomError(status, name, message, "", None, None)
  }

  /** What a failing query throws: the query builder's error whose `cause` is the driver's error. */
  function QueryFailed(pg: PgError): CustomError {
    CustomError(0, "Error", "Failed query", "", Some(pg), None)
  }

  const UniqueViolation := "23505"
  const ForeignKeyViolation := "23503"
  const InvalidTextRepresentation := "22P02"
  const NotNullViolation := "23502"

  /** `err.cause || err.original`. */
  function DatabaseCause(err: CustomError): Option<PgError> {
    if err.cause.Some? then err.cause else err.original
  }

  /**
   * The translation, stated rule by rule in order of precedence: the four error names decide
   * outright; otherwise a database cause with something to say maps its code (or passes its
   * text on); otherwise the error's own status and message are kept, 500 and
   * "Internal Server Error" standing in for missing ones.
   */
  function Translate(err: CustomError): Reply {
    if err.name == "ForbiddenError" then Reply(403, "Forbidden")
    else if err.name == "NotFoundError" then Reply(404, Or(err.message, "Resource not found"))
    else if err.name == "UnauthorizedError" then Reply(401, Or(err.message, "Unauthorized"))
    else if err.name == "ValidationError" then Reply(400, Or(err.message, "Validation Error"))
    else
      var status := if err.status != 0 then err.status else 500;
      var pg := DatabaseCause(err);
      var pgMessage := if pg.Some? then Or(pg.value.detail, Or(pg.value.message, pg.value.code)) else "";
      if pgMessage == "" then Reply(status, Or(err.message, "Internal Server Error"))
      else if pg.value.code == UniqueViolation then Reply(409, "Resource already exists")
      else if pg.value.code == ForeignKeyViolation then Reply(400, "Invalid reference to related resource")
      else if pg.value.code == InvalidTextRepresentation then Reply(400, "Invalid ID format")
      else Reply(status, pgMessage)
  }

  /** errorHandler: the chain of assignments to `status` and `message`, ending in the reply. */
  method ErrorHandler(err: CustomError) returns (reply: Reply)
    ensures reply == Translate(err)
  {
    var status := if err.status != 0 then err.status else 500;
    var message := Or(err.message, "Internal Server Error");

    var pgError := DatabaseCause(err);
    if pgError.Some? {
      var pg := pgError.value;
      var pgMessage := Or(pg.detail, Or(pg.message, pg.code));
      if pgMessage != "" {
        message := pgMessage;
        if pg.code == UniqueViolation {
          status := 409;
          message := "Resource already exists";
        } else if pg.code == ForeignKeyViolation {
          status := 400;
          message := "Invalid reference to related resource";
        } else if pg.code == InvalidTextRepresentation {
          status := 400;
          message := "Invalid ID format";
        }
      }
    }

    if err.name == "ValidationError" {
      status := 400;
      message := Or(err.message, "Validation Error");
    }
    if err.name == "UnauthorizedError" {
      status := 401;
      message := Or(err.message, "Unauthorized");
    }
    if err.name == "ForbiddenError" {
      status := 403;
      message := "Forbidden";
    }
    if err.name == "NotFoundError" {
      status := 404;
      message := Or(err.message, "Resource not found");
    }

    reply := Reply(status, message);
  }

  /** notFound: the error for an unmatched route. */
  function NotFound(originalUrl: string): (err: CustomError)
    ensures Translate(err) == Reply(404, "Not found - " + originalUrl)
  {
    var e := CustomError(404, "Error", "Not found - " + originalUrl, "", None, None);
    assert e.message != "" && DatabaseCause(e).None?;
    e
  }

  /** An error with neither status nor message nor anything else becomes 500 "Internal Server Error". */
  lemma DefaultReply(name: string)
    requires name !in {"ValidationError", "UnauthorizedError", "ForbiddenError", "NotFoundError"}
    ensures Translate(CustomError(0, name, "", "", None, None)) == Reply(500, "Internal Server Error")
  {
  }

  /** Without a database cause and a special name, the error's own status and message are kept. */
  lemma StatusKept(err: CustomError)
    requires err.status != 0 && err.message != "" && DatabaseCause(err).None?
    requires err.name !in {"ValidationError", "UnauthorizedError", "ForbiddenError", "NotFoundError"}
    ensures Translate(err) == Reply(err.status, err.message)
  {
  }

  /** The three PostgreSQL codes the handler knows, whatever status the error had. */
  lemma PgCodes(err: CustomError, pg: PgError)
    requires DatabaseCause(err) == Some(pg)
    requires err.name !in {"ValidationError", "UnauthorizedError", "ForbiddenError", "NotFoundError"}
    ensures pg.code == UniqueViolation ==> Translate(err) == Reply(409, "Resource already exists")
    ensures pg.code == ForeignKeyViolation ==> Translate(err) == Reply(400, "Invalid reference to related resource")
    ensures pg.code == InvalidTextRepresentation ==> Translate(err) == Reply(400, "Invalid ID format")
  {
  }

  /** Any other database cause sets the message to its detail, else message, else code, and keeps the status. */
  lemma PgOtherCode(err: CustomError, pg: PgError)
    requires DatabaseCause(err) == Some(pg)
    requires pg.code !in {UniqueViolation, ForeignKeyViolation, InvalidTextRepresentation}
    requires Or(pg.detail, Or(pg.message, pg.code)) != ""
    requires err.name !in {"ValidationError", "UnauthorizedError", "ForbiddenError", "NotFoundError"}
    ensures Translate(err) == Reply(if err.status != 0 then err.status else 500, Or(pg.detail, Or(pg.message, pg.code)))
  {
  }

  /** The name rules come last in the handler and so override status and database cause alike. */
  lemma NameRulesWin(err: CustomError)
    requires err.name in {"ValidationError", "UnauthorizedError", "ForbiddenError", "NotFoundError"}
    ensures Translate(err) == Translate(Raise(0, err.name, err.message))
    ensures err.name == "ValidationError" ==> Translate(err) == Reply(400, Or(err.message, "Validation Error"))
    ensures err.name == "UnauthorizedError" ==> Translate(err) == Reply(401, Or(err.message, "Unauthorized"))
    ensures err.name == "ForbiddenError" ==> Translate(err) == Reply(403, "Forbidden")
    ensures err.name == "NotFoundError" ==> Translate(err) == Reply(404, Or(err.message, "Resource not found"))
  {
  }
}

/**
 * The application's last error handler: it turns an error object into an
 * HTTP status and a message, rendered as an HTML page or as a JSON body.
 */
module ErrorMiddleware {
  import opened Wrappers

  /**
   * The fields of an error the handler reads. `status` and `message` may
   * be missing; `code` is set by the database driver; `name` is the
   * error's class name.
   */
  datatype AppError = AppError(status: Option<int>, code: Option<string>, name: string, message: Option<string>)

  /** The JSON body of a failure: `status` is always "fail". */
  datatype FailJson = FailJson(status: string, error: Option<string>)

  datatype ErrorReply =
    | HtmlPage(httpStatus: int, message: Option<string>)
    | Json(httpStatus: int, body: FailJson)
  {
    function Status(): (s: int)
    {
      match this
      case HtmlPage(s, _) => s
      case Json(s, _) => s
    }

    function Message(): (m: Option<string>)
    {
      match this
      case HtmlPage(_, m) => m
      case Json(_, b) => b.error
    }
  }

  /** The database driver's code for a unique-constraint violation. */
  const UniqueViolation: string := "23505"
  const AlreadyExists: string := "Resource already exists"
  const InternalError: string := "Internal Server Error"
  const TokenExpiredName: string := "TokenExpiredError"
  const TokenExpired: string := "Token expired"

  /** `!status` in JavaScript: a missing status or zero. */
  predicate Falsy(status: Option<int>)
  {
    status.None? || status.value == 0
  }

  /**
   * The handler. `html` stands for the request having asked for an HTML
   * rendering; that branch returns before the expired-token rule.
   */
  function HandleError(err: AppError, html: bool): (r: ErrorReply)
    // the JSON body always says "fail"
    ensures r.Json? ==> r.body.status == "fail"
    ensures r.HtmlPage? <==> html
    // an expired token wins over every other rule, but only for JSON
    ensures !html && err.name == TokenExpiredName ==> r.Status() == 401 && r.Message() == Some(TokenExpired)
    ensures html ==> r.Status() != 401 || err.status == Some(401)
    // a unique-constraint violation is a client error saying the resource exists
    ensures err.code == Some(UniqueViolation) && (html || err.name != TokenExpiredName) ==>
              r.Status() == 400 && r.Message() == Some(AlreadyExists)
    // a missing or zero status is a server error
    ensures err.code != Some(UniqueViolation) && Falsy(err.status) && (html || err.name != TokenExpiredName) ==>
              r.Status() == 500
    // otherwise the status passes through
    ensures err.code != Some(UniqueViolation) && !Falsy(err.status) && (html || err.name != TokenExpiredName) ==>
              r.Status() == err.status.value
    // a server error never carries the original message
    ensures r.Status() == 500 ==> r.Message() == Some(InternalError)
    // the message passes through unless a rule replaced it
    ensures err.code != Some(UniqueViolation) && r.Status() != 500 && (html || err.name != TokenExpiredName) ==>
              r.Message() == err.message
  {
    var (status, message) :=
      if err.code == Some(UniqueViolation) then (Some(400), Some(AlreadyExists)) else (err.status, err.message);
    var status := if Falsy(status) then 500 else status.value;
    var message := if status == 500 then Some(InternalError) else message;
    if html then HtmlPage(status, message)
    else if err.name == TokenExpiredName then Json(401, FailJson("fail", Some(TokenExpired)))
    else Json(status, FailJson("fail", message))
  }
}

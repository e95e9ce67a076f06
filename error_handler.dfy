/** The last-resort error middleware: it turns a thrown error into a status
    code and a message by an ordered chain of tests. */
module ErrorHandler {
  import opened Common

  /** The parts of a thrown error the handler reads; `None` is a property that
      is absent. `validationMessages` are the `message`s of `err.errors` in
      the object's order. */
  datatype Err = Err(
    name: Option<string>,
    message: Option<string>,
    statusCode: Option<int>,
    code: Option<int>,
    validationMessages: seq<string>)

  /** `msgs.join(sep)`. */
  function Join(msgs: seq<string>, sep: string): (r: string)
    ensures |msgs| == 0 ==> r == ""
    ensures |msgs| == 1 ==> r == msgs[0]
  {
    if |msgs| == 0 then ""
    else if |msgs| == 1 then msgs[0]
    else msgs[0] + sep + Join(msgs[1..], sep)
  }

  /** Joining one more message adds the separator and that message. */
  lemma {:induction false} JoinSnoc(msgs: seq<string>, m: string, sep: string)
    requires |msgs| > 0
    ensures Join(msgs + [m], sep) == Join(msgs, sep) + sep + m
  {
    if |msgs| == 1 {
      assert msgs + [m] == [msgs[0], m];
      assert [msgs[0], m][1..] == [m];
    } else {
      assert (msgs + [m])[1..] == msgs[1..] + [m];
      JoinSnoc(msgs[1..], m, sep);
    }
  }

  /** The joined message is as long as the messages and separators together. */
  lemma {:induction false} JoinLength(msgs: seq<string>, sep: string)
    requires |msgs| > 0
    ensures |Join(msgs, sep)| == SumLengths(msgs) + (|msgs| - 1) * |sep|
  {
    if |msgs| > 1 {
      JoinLength(msgs[1..], sep);
    }
  }

  function SumLengths(msgs: seq<string>): nat {
    if |msgs| == 0 then 0 else |msgs[0]| + SumLengths(msgs[1..])
  }

  /** `errorHandler(err, ...)`: starts from `err.statusCode || 500` and
      `err.message || 'Server Error'`, then the first matching test of
      ValidationError, CastError, duplicate-key code 11000, JsonWebTokenError,
      TokenExpiredError overrides both. The answer is always an error
      response. */
  method Handle(err: Err) returns (r: Response<bool>)
    ensures r.Failure?
    ensures err.name == Some("ValidationError") ==> r == Failure(400, Join(err.validationMessages, ", "))
    ensures err.name == Some("CastError") ==> r == Failure(400, "Resource not found")
    ensures err.name != Some("ValidationError") && err.name != Some("CastError") && err.code == Some(11000)
            ==> r == Failure(400, "Duplicate field value entered")
    ensures err.code != Some(11000) && err.name == Some("JsonWebTokenError") ==> r == Failure(401, "Invalid token")
    ensures err.code != Some(11000) && err.name == Some("TokenExpiredError") ==> r == Failure(401, "Token expired")
    ensures err.name !in {Some("ValidationError"), Some("CastError"), Some("JsonWebTokenError"), Some("TokenExpiredError")}
            && err.code != Some(11000)
            ==> r == Failure(if err.statusCode.Some? && err.statusCode.value != 0 then err.statusCode.value else 500,
                             OrElse(err.message, "Server Error"))
  {
    var statusCode := if err.statusCode.Some? && err.statusCode.value != 0 then err.statusCode.value else 500;
    var message := OrElse(err.message, "Server Error");
    if err.name == Some("ValidationError") {
      statusCode := 400;
      message := Join(err.validationMessages, ", ");
    } else if err.name == Some("CastError") {
      statusCode := 400;
      message := "Resource not found";
    } else if err.code == Some(11000) {
      statusCode := 400;
      message := "Duplicate field value entered";
    } else if err.name == Some("JsonWebTokenError") {
      statusCode := 401;
      message := "Invalid token";
    } else if err.name == Some("TokenExpiredError") {
      statusCode := 401;
      message := "Token expired";
    }
    r := Failure(statusCode, message);
  }
}

/**
 * The task tools' exceptions and `handle_tool_errors` (backend/mcp/errors.py): each exception class
 * fixes a code, a message and a details dictionary, and the wrapper turns any exception into an
 * `MCPErrors` value instead of letting it escape.
 */
module ToolErrors {
  import opened Wrappers
  import opened Json

  datatype ErrorCode = NotFound | BadRequest | Forbidden | InternalErrorCode | Unauthorized

  /** The wire name of each code. */
  function CodeName(c: ErrorCode): string {
    match c
    case NotFound => "NOT_FOUND"
    case BadRequest => "BAD_REQUEST"
    case Forbidden => "FORBIDDEN"
    case InternalErrorCode => "INTERNAL_ERROR"
    case Unauthorized => "UNAUTHORIZED"
  }

  /**
   * An exception a tool can raise. `McpError` is the base class raised directly; `Other` is any
   * exception outside the hierarchy, carried by its `str()`.
   */
  datatype ToolException =
    | TaskNotFoundError(taskId: int)
    | ValidationError(message: string, field: Option<string>)
    | UnauthorizedError(message: string)
    | InternalError(message: string)
    | McpError(code: ErrorCode, message: string, details: Option<Dict>)
    | Other(text: string)

  const DefaultUnauthorizedMessage: string := "Unauthorized access"
  const DefaultInternalMessage: string := "Internal server error"

  /** The standard error value `MCPErrors(code, message, details)`. */
  datatype McpErrors = McpErrors(code: ErrorCode, message: string, details: Dict)

  // ---------------------------------------------------------------- decimal rendering

  function DigitChar(d: int): char
    requires 0 <= d < 10
  {
    "0123456789"[d]
  }

  predicate AllDigits(s: string) {
    forall i :: 0 <= i < |s| ==> '0' <= s[i] <= '9'
  }

  /** The decimal digits of `n`, most significant first, as `str(n)` prints them. */
  function Digits(n: nat): (s: string)
    ensures |s| > 0
    ensures AllDigits(s)
    ensures n >= 10 ==> s[0] != '0'
    decreases n
  {
    if n < 10 then [DigitChar(n)] else Digits(n / 10) + [DigitChar(n % 10)]
  }

  /** `str(n)` for an integer, with a leading `-` when negative. */
  function IntToString(n: int): string {
    if n < 0 then "-" + Digits(-n) else Digits(n)
  }

  /** The value of a string of decimal digits. */
  function DigitsValue(s: string): nat
    requires AllDigits(s)
    decreases |s|
  {
    if s == [] then 0 else DigitsValue(s[..|s| - 1]) * 10 + (s[|s| - 1] as int - '0' as int)
  }

  /** Reading the digits back gives the number: the rendering loses nothing. */
  lemma {:induction false} DigitsRoundTrip(n: nat)
    ensures DigitsValue(Digits(n)) == n
    decreases n
  {
    if n >= 10 {
      var s := Digits(n);
      assert s[..|s| - 1] == Digits(n / 10);
      DigitsRoundTrip(n / 10);
    }
  }

  /** `int(s)` for an optional `-` followed by decimal digits; `None` for anything else. */
  function ParseInt(s: string): Option<int> {
    if |s| > 1 && s[0] == '-' && AllDigits(s[1..]) then
      var magnitude: int := DigitsValue(s[1..]);
      Some(-magnitude)
    else if |s| > 0 && AllDigits(s) then
      var magnitude: int := DigitsValue(s);
      Some(magnitude)
    else None
  }

  /** A digit string reads as its value, and with a `-` in front as its negation. */
  lemma ParseSigned(d: string)
    requires |d| > 0 && AllDigits(d)
    ensures ParseInt("-" + d) == Some(-(DigitsValue(d) as int)) && ParseInt(d) == Some(DigitsValue(d))
  {
    assert ("-" + d)[1..] == d;
  }

  /** Parsing a rendered integer gives the integer back. */
  lemma IntRoundTrip(n: int)
    ensures ParseInt(IntToString(n)) == Some(n)
  {
    var d := Digits(if n < 0 then -n else n);
    ParseSigned(d);
    DigitsRoundTrip(if n < 0 then -n else n);
  }

  /** Distinct ids render as distinct strings. */
  lemma IntToStringInjective(a: int, b: int)
    requires IntToString(a) == IntToString(b)
    ensures a == b
  {
    IntRoundTrip(a);
    IntRoundTrip(b);
  }

  // ---------------------------------------------------------------- the exception classes

  /** The code, message and details each exception class sets in its constructor. */
  function Describe(e: ToolException): (m: McpErrors)
    ensures e.TaskNotFoundError? ==> m.code == NotFound && m.details == map["task_id" := Int(e.taskId)]
    ensures e.TaskNotFoundError? ==> m.message == "Task with id " + IntToString(e.taskId) + " not found"
    ensures e.ValidationError? ==> m.code == BadRequest && m.message == e.message
    ensures e.ValidationError? ==> ("field" in m.details <==> e.field.Some? && e.field.value != "")
    ensures e.ValidationError? && e.field.Some? && e.field.value != "" ==> m.details == map["field" := Str(e.field.value)]
    ensures e.ValidationError? && (e.field.None? || e.field.value == "") ==> m.details == map[]
    ensures e.UnauthorizedError? ==> m == McpErrors(Forbidden, e.message, map[])
    ensures e.InternalError? ==> m == McpErrors(InternalErrorCode, e.message, map[])
    ensures e.McpError? ==> m.code == e.code && m.message == e.message
  {
    match e
    case TaskNotFoundError(id) =>
      McpErrors(NotFound, "Task with id " + IntToString(id) + " not found", map["task_id" := Int(id)])
    case ValidationError(message, field) =>
      McpErrors(BadRequest, message, if field.Some? && field.value != "" then map["field" := Str(field.value)] else map[])
    case UnauthorizedError(message) => McpErrors(Forbidden, message, map[])
    case InternalError(message) => McpErrors(InternalErrorCode, message, map[])
    case McpError(code, message, details) =>
      McpErrors(code, message, if details.Some? && details.value != map[] then details.value else map[])
    case Other(text) => McpErrors(InternalErrorCode, text, map[])
  }

  /** `str(e)`: every class in the hierarchy passes its message to `Exception`. */
  function ExceptionText(e: ToolException): string {
    match e
    case Other(text) => text
    case _ => Describe(e).message
  }

  /** The not-found message names the id, and different ids give different messages. */
  lemma NotFoundMessagesDistinct(a: int, b: int)
    requires Describe(TaskNotFoundError(a)).message == Describe(TaskNotFoundError(b)).message
    ensures a == b
  {
    var p := "Task with id ";
    var q := " not found";
    var ma := Describe(TaskNotFoundError(a)).message;
    assert ma == p + IntToString(a) + q;
    assert ma[|p|..|ma| - |q|] == IntToString(a);
    var mb := Describe(TaskNotFoundError(b)).message;
    assert mb[|p|..|mb| - |q|] == IntToString(b);
    IntToStringInjective(a, b);
  }

  // ---------------------------------------------------------------- the wrapper

  /**
   * `handle_tool_errors`: a result passes through; the four named subclasses are reported with their
   * own code, message and details; anything else, including a bare `MCPError`, becomes an internal
   * error carrying its text.
   */
  function HandleToolErrors<T>(outcome: Result<T, ToolException>): (r: Result<T, McpErrors>)
    ensures outcome.Ok? <==> r.Ok?
    ensures outcome.Ok? ==> r.value == outcome.value
    ensures outcome.Err? && outcome.error.TaskNotFoundError? ==> r.error.code == NotFound
    ensures outcome.Err? && outcome.error.ValidationError? ==> r.error.code == BadRequest
    ensures outcome.Err? && outcome.error.UnauthorizedError? ==> r.error.code == Forbidden
    ensures outcome.Err? && !outcome.error.McpError? && !outcome.error.Other? ==> r.error == Describe(outcome.error)
    ensures r.Err? ==> r.error.message == ExceptionText(outcome.error)
    ensures outcome.Err? && (outcome.error.McpError? || outcome.error.Other?) ==>
      r.error == McpErrors(InternalErrorCode, ExceptionText(outcome.error), map[])
    ensures r.Err? ==> r.error.code != Unauthorized
  {
    match outcome
    case Ok(v) => Ok(v)
    case Err(e) =>
      match e
      case TaskNotFoundError(_) => Err(Describe(e))
      case ValidationError(_, _) => Err(Describe(e))
      case UnauthorizedError(_) => Err(Describe(e))
      case InternalError(_) => Err(Describe(e))
      case _ => Err(Describe(InternalError(ExceptionText(e))))
  }

  /** The reported code names the class that was raised: the four subclasses keep theirs, all else is internal. */
  lemma HandledCodeIdentifiesClass<T>(outcome: Result<T, ToolException>)
    requires outcome.Err?
    ensures var c := HandleToolErrors(outcome).error.code;
      && (c == NotFound <==> outcome.error.TaskNotFoundError?)
      && (c == BadRequest <==> outcome.error.ValidationError?)
      && (c == Forbidden <==> outcome.error.UnauthorizedError?)
      && (c == InternalErrorCode <==> outcome.error.InternalError? || outcome.error.McpError? || outcome.error.Other?)
  {
  }

  /** A reported not-found error gives back the id it was raised for, through its message and its details. */
  lemma NotFoundReportRecoversId<T>(id: int)
    ensures var r := HandleToolErrors<T>(Err(TaskNotFoundError(id)));
      && r.error.details["task_id"] == Int(id)
      && ParseInt(r.error.message[|"Task with id "|..|r.error.message| - |" not found"|]) == Some(id)
  {
    var m := HandleToolErrors<T>(Err(TaskNotFoundError(id))).error.message;
    assert m[|"Task with id "|..|m| - |" not found"|] == IntToString(id);
    IntRoundTrip(id);
  }
}

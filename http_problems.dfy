/**
 * The first backend's HTTP error responses: an `HTTPException` (status code,
 * detail, extra headers) becomes a problem-details body in the shape of section 3.1
 * of RFC 7807 (type, title, status, detail, instance), and request-validation
 * errors become a 422 response that carries the raw error list.
 */
module HttpProblems {
  import opened Wrappers
  import opened Text

  /** FastAPI's `HTTPException`; an empty `detail` is Python's falsy detail and an
      empty header list is "no headers". */
  datatype HttpException = HttpException(status: int, detail: string, headers: seq<(string, string)>)

  /** The `ErrorResponse` body after `model_dump(exclude_none=True)`: a `None` detail
      is left out of the body. */
  datatype Problem = Problem(typeUri: string, title: string, status: int, detail: Option<string>, instance: string)

  datatype ProblemResponse = ProblemResponse(statusCode: int, body: Problem, headers: Option<seq<(string, string)>>)

  /** The statuses the title table knows. */
  predicate KnownStatus(code: int)
  {
    code == 400 || code == 401 || code == 403 || code == 404 || code == 409 || code == 422 || code == 500
  }

  /** The title table of `http_exception_handler`, with "Error" for every other code. */
  function StatusTitle(code: int): (r: string)
    ensures r == "Error" <==> !KnownStatus(code)
    ensures code == 401 ==> r == "Unauthorized"
  {
    match code
    case 400 => "Bad Request"
    case 401 => "Unauthorized"
    case 403 => "Forbidden"
    case 404 => "Not Found"
    case 409 => "Conflict"
    case 422 => "Unprocessable Entity"
    case 500 => "Internal Server Error"
    case _ => "Error"
  }

  const TypeBase: string := "https://httpstatuses.com/"

  function ProblemType(code: int): string
  {
    TypeBase + IntToString(code)
  }

  /** `str(exc.detail) if exc.detail else None`. */
  function DetailOf(exc: HttpException): (r: Option<string>)
    ensures r.None? <==> exc.detail == ""
    ensures r.Some? ==> r.value == exc.detail
  {
    if exc.detail == "" then None else Some(exc.detail)
  }

  /** `exc.headers if exc.headers else None`. */
  function HeadersOf(exc: HttpException): (r: Option<seq<(string, string)>>)
    ensures r.None? <==> exc.headers == []
    ensures r.Some? ==> r.value == exc.headers
  {
    if exc.headers == [] then None else Some(exc.headers)
  }

  /** `http_exception_handler`: the response status is the exception's, the body
      carries the status, its title and type, the detail when there is one, and the
      request path; the exception's headers are kept. */
  function HttpExceptionHandler(exc: HttpException, path: string): (r: ProblemResponse)
    ensures r.statusCode == exc.status && r.body.status == exc.status
    ensures r.body.title == StatusTitle(exc.status)
    ensures r.body.typeUri == TypeBase + IntToString(exc.status)
    ensures r.body.detail == DetailOf(exc) && r.body.instance == path
    ensures r.headers == HeadersOf(exc)
  {
    ProblemResponse(exc.status,
      Problem(ProblemType(exc.status), StatusTitle(exc.status), exc.status, DetailOf(exc), path),
      HeadersOf(exc))
  }

  /** `authentication_exception_handler`: any other status is delegated; a 401 is
      answered with the fixed Unauthorized problem built in place. */
  function AuthenticationExceptionHandler(exc: HttpException, path: string): (r: ProblemResponse)
    ensures exc.status != 401 ==> r == HttpExceptionHandler(exc, path)
    ensures exc.status == 401 ==>
      r.statusCode == 401 && r.body.title == "Unauthorized" && r.body.typeUri == "https://httpstatuses.com/401"
      && r.headers == HeadersOf(exc) && r.body.detail == DetailOf(exc) && r.body.instance == path
  {
    if exc.status != 401 then HttpExceptionHandler(exc, path)
    else
      ProblemResponse(exc.status,
        Problem("https://httpstatuses.com/401", "Unauthorized", 401, DetailOf(exc), path),
        HeadersOf(exc))
  }

  /** The rendering of 401 used in the type URI. */
  lemma Render401()
    ensures IntToString(401) == "401"
  {
    assert NatToString(4) == "4";
    assert NatToString(40) == "40";
  }

  /** The dedicated 401 branch answers exactly as the general handler would, so the
      two handlers agree on every exception. */
  lemma AuthenticationAgrees(exc: HttpException, path: string)
    ensures AuthenticationExceptionHandler(exc, path) == HttpExceptionHandler(exc, path)
  {
    if exc.status == 401 {
      Render401();
    }
  }

  /** The type URI is a faithful rendering of the status: the status can be read
      back from it, and two statuses never share a type. */
  lemma {:induction false} ProblemTypeDecodes(code: nat)
    ensures StartsWith(ProblemType(code), TypeBase)
    ensures var digits := ProblemType(code)[|TypeBase|..];
      AllDigits(digits) && DigitsValue(digits) == code
  {
    var t := ProblemType(code);
    assert t[..|TypeBase|] == TypeBase;
    assert t[|TypeBase|..] == NatToString(code);
    NatToStringValue(code);
  }

  lemma {:induction false} ProblemTypeInjective(a: int, b: int)
    requires ProblemType(a) == ProblemType(b)
    ensures a == b
  {
    var sa, sb := IntToString(a), IntToString(b);
    assert sa == ProblemType(a)[|TypeBase|..] && sb == ProblemType(b)[|TypeBase|..];
    IntToStringSign(a);
    IntToStringSign(b);
    if a < 0 {
      assert NatToString(-a) == sa[1..] == NatToString(-b);
      NatToStringValue(-a);
      NatToStringValue(-b);
    } else {
      NatToStringValue(a);
      NatToStringValue(b);
    }
  }

  /** The rendering starts with a minus sign exactly for negative numbers. */
  lemma IntToStringSign(i: int)
    ensures |IntToString(i)| > 0 && (IntToString(i)[0] == '-' <==> i < 0)
  {
    if i >= 0 {
      assert IsDigit(IntToString(i)[0]);
    }
  }

  // ---------------------------------------------------------------------------
  // validation_exception_handler

  /** One part of a validation error's location: a field name or a list index. */
  datatype LocPart = Key(name: string) | Index(i: int)

  /** A raw validation error as pydantic reports it; a missing message or type is
      `None` here, and the optional input is kept as its rendering. */
  datatype RawError = RawError(loc: seq<LocPart>, msg: Option<string>, errorType: Option<string>, input: Option<string>)

  /** The formatted error that is only logged. */
  datatype FieldError = FieldError(field: string, message: string, errorType: string, input: Option<string>)

  datatype ValidationResponse = ValidationResponse(statusCode: int, detail: seq<RawError>)

  function LocString(p: LocPart): string
  {
    match p
    case Key(name) => name
    case Index(i) => IntToString(i)
  }

  function LocStrings(loc: seq<LocPart>): (r: seq<string>)
    ensures |r| == |loc| && forall k :: 0 <= k < |loc| ==> r[k] == LocString(loc[k])
  {
    if loc == [] then [] else [LocString(loc[0])] + LocStrings(loc[1..])
  }

  /** The formatted form of one raw error. */
  function Formatted(e: RawError): FieldError
  {
    FieldError(Join(LocStrings(e.loc), "."), e.msg.GetOr(""), e.errorType.GetOr(""), e.input)
  }

  /** The loop that builds `validation_errors`: one formatted error per raw error, in
      order. */
  method FormatValidationErrors(errors: seq<RawError>) returns (formatted: seq<FieldError>)
    ensures |formatted| == |errors|
    ensures forall k :: 0 <= k < |errors| ==> formatted[k] == Formatted(errors[k])
  {
    formatted := [];
    for k := 0 to |errors|
      invariant |formatted| == k
      invariant forall j :: 0 <= j < k ==> formatted[j] == Formatted(errors[j])
    {
      formatted := formatted + [Formatted(errors[k])];
    }
  }

  /** The joined field name can be split back into its parts when no key contains a
      dot, so the field names the location without loss. */
  lemma FieldNamesSplitBack(e: RawError)
    requires e.loc != []
    requires forall k :: 0 <= k < |e.loc| ==> '.' !in LocString(e.loc[k])
    ensures SplitOn(Formatted(e).field, '.') == LocStrings(e.loc)
  {
    SplitJoin(LocStrings(e.loc), '.');
    assert "." == ['.'];
  }

  /** `validation_exception_handler`: whatever was logged, the response is a 422
      carrying the raw errors unchanged. */
  method ValidationExceptionHandler(errors: seq<RawError>) returns (r: ValidationResponse, logged: seq<FieldError>)
    ensures r.statusCode == 422 && r.detail == errors
    ensures |logged| == |errors| && forall k :: 0 <= k < |errors| ==> logged[k] == Formatted(errors[k])
  {
    logged := FormatValidationErrors(errors);
    r := ValidationResponse(422, errors);
  }
}

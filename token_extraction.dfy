/**
 * Reading the bearer token out of a login response body: the dynamic member access
 * `json?.token?.ToString()`, and the guarded `ExtractTokenFromResponse`.
 */
module TokenExtraction {
  import opened Wrappers
  import opened Json
  import opened Http

  const TokenField := "token"

  /** Decimal text of an integer, with a leading '-' when negative. */
  function IntText(n: int): string
    decreases if n < 0 then 1 - n else n
  {
    if n < 0 then "-" + IntText(-n)
    else if n < 10 then [(n as char) + '0']
    else IntText(n / 10) + [((n % 10) as char) + '0']
  }

  /** `JToken.ToString()` of a property value; objects and arrays are rendered by the library. */
  function TokenText(value: Json, lib: JsonLibrary): string
  {
    match value
    case JStr(s) => s
    case JNull => ""
    case JBool(b) => if b then "True" else "False"
    case JInt(n) => IntText(n)
    case _ => lib.format(value)
  }

  /** The dynamic access `json?.token` failed: the parsed body is neither null nor an object. */
  datatype BinderError = NoSuchMember

  /**
   * `json?.token` on a parsed body: a null body gives null, an object gives its
   * "token" property or null, and any other value throws.
   */
  function TokenMember(parsed: Json): (r: Result<Option<Json>, BinderError>)
    ensures r.Success? <==> parsed.JNull? || parsed.JObj?
    ensures r.Success? && r.value.Some? <==> parsed.JObj? && TokenField in parsed.fields
    ensures r.Success? && r.value.Some? ==> r.value.value == parsed.fields[TokenField]
  {
    match parsed
    case JNull => Success(None)
    case JObj(fields) => Success(if TokenField in fields then Some(fields[TokenField]) else None)
    case _ => Failure(NoSuchMember)
  }

  /**
   * `ExtractTokenFromResponse`: the token of a successful response with a non-empty
   * body; every failure, thrown or not, is absorbed into `None`.
   */
  function ExtractTokenFromResponse(response: Response, lib: JsonLibrary): (r: Option<string>)
    ensures r.Some? <==>
      && response.isSuccessful
      && !IsNullOrEmpty(response.content)
      && lib.parse(response.content.value).Some?
      && lib.parse(response.content.value).value.JObj?
      && TokenField in lib.parse(response.content.value).value.fields
    ensures r.Some? ==>
      r.value == TokenText(lib.parse(response.content.value).value.fields[TokenField], lib)
  {
    if response.isSuccessful && !IsNullOrEmpty(response.content) then
      match lib.parse(response.content.value)
      case None => None
      case Some(parsed) =>
        match TokenMember(parsed)
        case Success(Some(value)) => Some(TokenText(value, lib))
        case _ => None
    else
      None
  }
}

/** `LoginRoute`: posting credentials to "/login" and reading back the token. */
module LoginRoute {
  import opened Wrappers
  import opened Json
  import opened Http
  import opened TokenExtraction

  const Route := "/login"

  /** `LoginAsync`: a POST of `{email, password}`, unvalidated, with no header dictionary. */
  function LoginAsync(email: string, password: string): (request: Request)
    ensures request.verb == Post && request.route == Route && request.headers == None
    ensures request.body.Some? && request.body.value.JObj?
    ensures request.body.value.fields.Keys == {"email", "password"}
    ensures request.body.value.fields["email"] == JStr(email)
    ensures request.body.value.fields["password"] == JStr(password)
  {
    Request(Post, Route, Some(JObj(map["email" := JStr(email), "password" := JStr(password)])), None)
  }

  /** The exceptions `GetToken` lets through. */
  datatype TokenError =
    | NullContent      // ArgumentNullException: the response has no body text
    | Unparseable      // JsonReaderException: the body is not JSON
    | NotAnObject      // RuntimeBinderException: the body is JSON but not an object

  /**
   * `GetToken`: sends the `LoginAsync` request through `send` (the HTTP client) and
   * parses the body of whatever comes back, whatever its status, catching nothing.
   */
  function GetToken(email: string, password: string, send: Request -> Response, lib: JsonLibrary)
    : (r: Result<Option<string>, TokenError>)
    ensures var content := send(LoginAsync(email, password)).content;
      && (r == Failure(NullContent) <==> content.None?)
      && (r == Failure(Unparseable) <==> content.Some? && lib.parse(content.value).None?)
      && (r.Success? <==>
            && content.Some?
            && lib.parse(content.value).Some?
            && (lib.parse(content.value).value.JNull? || lib.parse(content.value).value.JObj?))
      && (r.Success? && r.value.Some? <==>
            && content.Some?
            && lib.parse(content.value).Some?
            && lib.parse(content.value).value.JObj?
            && TokenField in lib.parse(content.value).value.fields)
      && (r.Success? && r.value.Some? ==>
            r.value.value == TokenText(lib.parse(content.value).value.fields[TokenField], lib))
  {
    var response := send(LoginAsync(email, password));
    match response.content
    case None => Failure(NullContent)
    case Some(text) =>
      match lib.parse(text)
      case None => Failure(Unparseable)
      case Some(parsed) =>
        match TokenMember(parsed)
        case Failure(_) => Failure(NotAnObject)
        case Success(member) =>
          Success(match member case Some(value) => Some(TokenText(value, lib)) case None => None)
  }

  /**
   * `GetToken` depends only on the body text of the response to the `LoginAsync`
   * request: not on the status, and not on how the client answers other requests.
   */
  lemma GetTokenReadsOnlyLoginBody(email: string, password: string,
                                   send1: Request -> Response, send2: Request -> Response, lib: JsonLibrary)
    requires send1(LoginAsync(email, password)).content == send2(LoginAsync(email, password)).content
    ensures GetToken(email, password, send1, lib) == GetToken(email, password, send2, lib)
  {
  }

  /**
   * On a successful, non-empty response the two token readers agree whenever
   * `GetToken` does not throw; where it throws, `ExtractTokenFromResponse` gives `None`.
   */
  lemma ExtractAgreesWithGetToken(email: string, password: string, send: Request -> Response, lib: JsonLibrary)
    requires send(LoginAsync(email, password)).isSuccessful
    requires !IsNullOrEmpty(send(LoginAsync(email, password)).content)
    ensures var response := send(LoginAsync(email, password));
      && (GetToken(email, password, send, lib).Success? ==>
            ExtractTokenFromResponse(response, lib) == GetToken(email, password, send, lib).value)
      && (GetToken(email, password, send, lib).Failure? ==>
            ExtractTokenFromResponse(response, lib) == None)
  {
  }
}

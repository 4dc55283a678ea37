/** `ProductsRoute`: listing and creating products, with an optional bearer token. */
module ProductsRoute {
  import opened Wrappers
  import opened Json
  import opened Http
  import opened Headers

  const Route := "/products"
  const JsonMedia := "application/json"

  /** A token is attached when it is neither null nor empty. */
  predicate HasToken(token: Option<string>)
  {
    !IsNullOrEmpty(token)
  }

  /** Reference definition of the headers sent with a products request. */
  function ExpectedHeaders(token: Option<string>): map<string, string>
  {
    var base := map[ContentType := JsonMedia, Accept := JsonMedia];
    if HasToken(token) then base[Authorization := token.value] else base
  }

  /**
   * Content-Type and Accept are always "application/json"; Authorization is present
   * exactly when the token is non-empty, and then holds the token itself; with no
   * token there are exactly two headers.
   */
  lemma ExpectedHeadersShape(token: Option<string>)
    ensures var h := ExpectedHeaders(token);
      && h.Keys <= KnownNames
      && ContentType in h && h[ContentType] == JsonMedia
      && Accept in h && h[Accept] == JsonMedia
      && (Authorization in h <==> HasToken(token))
      && (HasToken(token) ==> h[Authorization] == token.value)
      && (!HasToken(token) ==> |h| == 2)
  {
  }

  /** Assembles the headers with a `HeadersBuilder`, adding Authorization only for a token. */
  method BuildHeaders(token: Option<string>) returns (h: map<string, string>)
    ensures h == ExpectedHeaders(token)
  {
    var headers := new HeadersBuilder();
    headers := headers.WithContentType(JsonMedia);
    headers := headers.WithAccept(JsonMedia);
    if HasToken(token) {
      var _ := headers.WithAuthorization(token.value);
    }
    var d := headers.Build();
    h := d.entries;
  }

  /** `GetAllProductsAsync`: a GET of "/products" with no body. */
  method GetAllProducts(token: Option<string>) returns (request: Request)
    ensures request.verb == Get && request.route == Route && request.body == None
    ensures request.headers == Some(ExpectedHeaders(token))
  {
    var h := BuildHeaders(token);
    request := Request(Get, Route, None, Some(h));
  }

  /** `CreateProductAsync`: a POST of the caller's data, unchanged, to "/products". */
  method CreateProduct(data: Json, token: Option<string>) returns (request: Request)
    ensures request.verb == Post && request.route == Route && request.body == Some(data)
    ensures request.headers == Some(ExpectedHeaders(token))
  {
    var h := BuildHeaders(token);
    request := Request(Post, Route, Some(data), Some(h));
  }
}

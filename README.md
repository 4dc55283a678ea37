# Backend integration-test harness: verified model of its deterministic core

This project models, in Dafny, the parts of the C# API-contract test harness
`BackendIntegrationTests` that carry logic rather than network calls:

- **Fixture store** (`JsonDataReader`). It loads a JSON fixture once, lazily. A dot
  path such as `credentials.valid.email` is split on `.` and walked key by key. The
  store hands back scalars by value and objects or arrays as copies. Files:
  `dot_path.dfy` (splitting, walking) and `json_data_reader.dfy` (the store).
- **Header builder** (`HeadersBuilder`). This is a fluent, last-write-wins accumulator
  over a mutable dictionary. `Build()` returns that dictionary by reference, not a
  copy, and the model keeps that aliasing (`headers_builder.dfy`).
- **Route modules**. The request each operation hands to the HTTP client (verb, route,
  body, header dictionary) for listing products, creating a product and logging in
  (`http.dfy`, `products_route.dfy`, `login_route.dfy`).
- **Token extraction**. Reading the `token` member out of a login response body, both
  the unguarded `GetToken` and the guarded `ExtractTokenFromResponse`
  (`token_extraction.dfy`, `login_route.dfy`).
- **Products**. The `Product` payload's defaults and `WithUniqueName`, whose copy is
  named `"<name> - <yyyyMMddHHmmss>"` (`product.dfy`).

`wrappers.dfy` holds `Option` (standing for C# null) and `Result` (standing for a
thrown exception). `json.dfy` holds the JSON tree and the interface of the JSON library.

Parameters stand in for the outside world:

- `file: Option<string>` is the fixture file's text at the time of the call. `None`
  means the file does not exist.
- `JsonLibrary(parse, format)` is the JSON library. `parse` returns `None` where the
  library throws. `format` is `JToken.ToString()` on objects and arrays.
- `send: Request -> Response` is the HTTP client executing a request.
- `now: DateTime` is the clock reading `DateTime.Now`.

Behaviour the model takes from the code and from the JSON library it calls:

- Indexing a JSON array by a property name throws `ArgumentException`, and indexing a
  scalar or a JSON null throws `InvalidOperationException`. Neither is the
  `KeyNotFoundException` of line 96, which is raised only for a property missing from
  an object. That error names the whole key path and the missing segment, not the
  prefix that succeeded.
- A JSON `null` stored in the fixture is a node, not a missing key. Reaching it as
  the final node is a conversion error (line 111). The "Failed at segment" branch
  (lines 86-90) cannot be reached, because the current node is never null there.
- `JObject.Parse` rejects a fixture whose root is not an object. The model reports
  that as a `Malformed` load failure.
- `Build()` hands out the builder's own dictionary, not a copy.
- `GetToken` does not look at the status. It fails (throws) on null content, on
  unparseable content, and on a body that is JSON but neither null nor an object.
  A body `{"token": null}` yields the empty string, because `JValue.ToString()` of a
  null value is `""`.
- A null token (`None`) is treated like `""` by the products routes
  (`string.IsNullOrEmpty`).

## Model

| member | source | states |
|---|---|---|
| `DotPath.Split` | BackendIntegrationTests/IntegrationTestsSetup.cs:81 | `Split('.')` gives one segment more than there are separators. No segment contains a separator. Joining the segments with `.` gives the path back. |
| `DotPath.SplitJoin` | BackendIntegrationTests/IntegrationTestsSetup.cs:81 | Conversely, splitting the join of separator-free segments gives those segments back. |
| `DotPath.Step` | BackendIntegrationTests/IntegrationTestsSetup.cs:92-97 | Indexing succeeds exactly when the node is an object holding the key, and then yields that property's value. A missing property fails with `MissingKey` naming the segment. An array fails with the library's argument error naming the segment. A scalar or null fails with the library's invalid-operation error, which names nothing. |
| `DotPath.Resolve` | BackendIntegrationTests/IntegrationTestsSetup.cs:84-98 | The walk of the segments in order. An empty path yields the root, and a failure names one of the path's segments unless it is the scalar-indexing error. Its full meaning is given by the `Resolve*` lemma rows below. |
| `DotPath.ResolveFollowsWalk` | BackendIntegrationTests/IntegrationTestsSetup.cs:81-98 | Whenever indexing the root with each segment in turn reaches a node, the walk succeeds with exactly that node. |
| `DotPath.ResolveWalkSound` | BackendIntegrationTests/IntegrationTestsSetup.cs:81-98 | A successful walk visited objects that each hold the next segment, and it ends at the node it returns. |
| `DotPath.ResolveFailsAtFirstBadStep` | BackendIntegrationTests/IntegrationTestsSetup.cs:84-97 | A failed walk fails with the failure of its first failing step. Every earlier step succeeded. |
| `DotPath.ResolveMissingKey` | BackendIntegrationTests/IntegrationTestsSetup.cs:92-97 | A segment missing from the object reached so far fails the walk with a not-found error naming that segment, whatever segments follow. |
| `DotPath.ResolveAppend` | BackendIntegrationTests/IntegrationTestsSetup.cs:84-98 | Walking `a + b` is walking `a` and then `b`. Once `a` fails, no segment of `b` is consulted. |
| `Fixtures.Convert` | BackendIntegrationTests/IntegrationTestsSetup.cs:100-111 | The final conversion fails exactly on a JSON null. Otherwise the value returned stands for exactly the node reached: a scalar by value, an object or array as an equal copy. |
| `Fixtures.Lookup` | BackendIntegrationTests/IntegrationTestsSetup.cs:81-111 | `GetValue` once the fixture is loaded. It never reports an argument or load error. A not-found error carries the whole key path and one of its segments, and a returned value is never null. Its full meaning is given by the `Lookup*` lemma rows below. |
| `Fixtures.LookupReturnsReachedNode` | BackendIntegrationTests/IntegrationTestsSetup.cs:81-111 | A successful lookup returns the node reached by indexing the root with each `.`-segment in order. That node is never null. |
| `Fixtures.LookupFindsWalkedNode` | BackendIntegrationTests/IntegrationTestsSetup.cs:81-111 | Every walk of the path's segments that ends on a non-null node makes the lookup succeed with that node. |
| `Fixtures.LookupNullLeaf` | BackendIntegrationTests/IntegrationTestsSetup.cs:110-111 | A path that reaches a JSON null fails with a conversion error. |
| `Fixtures.LookupMissingKey` | BackendIntegrationTests/IntegrationTestsSetup.cs:92-97 | A segment missing from the object reached so far makes the lookup fail with a not-found error naming that segment and the whole path. |
| `Fixtures.ReadFixture` | BackendIntegrationTests/IntegrationTestsSetup.cs:128-148 | A missing file is reported as file-not-found. The load succeeds exactly when the text parses to a JSON object, and yields that object. |
| `Fixtures.JsonDataReader.constructor` | BackendIntegrationTests/IntegrationTestsSetup.cs:52 | The store starts with no fixture loaded. |
| `Fixtures.JsonDataReader.LoadTestData` | BackendIntegrationTests/IntegrationTestsSetup.cs:128-148 | On success the parsed object is stored and the load is counted. On failure a load error is returned and the fixture stays unset. |
| `Fixtures.JsonDataReader.EnsureTestDataLoaded` | BackendIntegrationTests/IntegrationTestsSetup.cs:114-126 | A loaded fixture is never reloaded or changed. An unset one is loaded. The invariant keeps the count of successful loads at one at most. |
| `Fixtures.JsonDataReader.GetValue` | BackendIntegrationTests/IntegrationTestsSetup.cs:71-112 | A null, empty or white-space path is an argument error raised before any load, with the state unchanged. A failed load is returned as a load error and leaves the store unset, so the next call retries. Otherwise the loop's result equals `Lookup` on the loaded tree, and the tree is left as it was. |
| `Fixtures.GetValueTwice` | BackendIntegrationTests/IntegrationTestsSetup.cs:71-112 | Once loaded, two lookups of the same path return equal results and leave the tree unchanged. |
| `Headers.HeadersBuilder.constructor` | BackendIntegrationTests/Utils/Helpers/HeadersBuilder.cs:5 | A new builder owns a fresh, empty dictionary. |
| `Headers.HeadersBuilder.WithContentType` | BackendIntegrationTests/Utils/Helpers/HeadersBuilder.cs:7-11 | Sets `Content-Type`, overwriting any earlier value. Every other entry is unchanged, and the call returns the same builder. |
| `Headers.HeadersBuilder.WithAuthorization` | BackendIntegrationTests/Utils/Helpers/HeadersBuilder.cs:13-17 | Stores the token verbatim under `Authorization`. Nothing else changes, and the call returns the same builder. |
| `Headers.HeadersBuilder.WithAccept` | BackendIntegrationTests/Utils/Helpers/HeadersBuilder.cs:19-23 | Sets `Accept`, overwriting any earlier value. Nothing else changes, and the call returns the same builder. |
| `Headers.HeadersBuilder.Build` | BackendIntegrationTests/Utils/Helpers/HeadersBuilder.cs:25-28 | Changes nothing and returns the builder's own dictionary, not a copy. |
| `Headers.BuildSharesLaterWrites` | BackendIntegrationTests/Utils/Helpers/HeadersBuilder.cs:25-28 | For any builder, two `Build()` results are the builder's own dictionary object. A `With*` call made after the first `Build()` shows through it. |
| `ProductsRoute.ExpectedHeadersShape` | BackendIntegrationTests/Routes/ProductsRoute.cs:13-21 | `Content-Type` and `Accept` are always `application/json`. `Authorization` is present exactly when the token is non-empty, and then equals the token. With no token there are exactly two headers, and only the three known names occur. |
| `ProductsRoute.BuildHeaders` | BackendIntegrationTests/Routes/ProductsRoute.cs:13-21 | The dictionary assembled through the builder is exactly the reference header map for the token. |
| `ProductsRoute.GetAllProducts` | BackendIntegrationTests/Routes/ProductsRoute.cs:10-25 | A GET of `/products` with no body, carrying the reference headers. |
| `ProductsRoute.CreateProduct` | BackendIntegrationTests/Routes/ProductsRoute.cs:27-42 | A POST of `/products` whose body is the caller's data, unchanged, carrying the reference headers. |
| `TokenExtraction.TokenMember` | BackendIntegrationTests/Tests/IntegrationTestsSetup.cs:32-33 | `json?.token` succeeds exactly on null and on objects. It yields a value exactly when the object has a `token` property, and that value is the property's. |
| `TokenExtraction.ExtractTokenFromResponse` | BackendIntegrationTests/Tests/IntegrationTestsSetup.cs:26-41 | The result is `Some` exactly when the response is successful, its content is non-empty, and the content parses to an object with a `token` member. It is then that member's text. Unsuccessful, empty, unparseable or token-less responses give `None`. |
| `LoginRoute.LoginAsync` | BackendIntegrationTests/Routes/LoginRoute.cs:8-18 | A POST to `/login` with no header dictionary. The body has exactly the fields `email` and `password`, holding the caller's values unvalidated. |
| `LoginRoute.GetToken` | BackendIntegrationTests/Routes/LoginRoute.cs:20-31 | Whatever the status: null content is an error, and unparseable content is a parse error. The call returns normally exactly when the body parses to JSON null or to an object, and any other JSON value throws. A token is returned exactly when that object has a `token` member, and it is then that member's text. Null or a token-less object gives null. |
| `LoginRoute.GetTokenReadsOnlyLoginBody` | BackendIntegrationTests/Routes/LoginRoute.cs:22-30 | `GetToken` sends the same request as `LoginAsync`. Its result depends only on the body text of the response to that request, not on the status. |
| `LoginRoute.ExtractAgreesWithGetToken` | BackendIntegrationTests/Tests/IntegrationTestsSetup.cs:28-40 | On a successful, non-empty login response, `ExtractTokenFromResponse` equals `GetToken` whenever `GetToken` does not throw. Where `GetToken` throws, it gives `None`. |
| `Products.NewProduct` | BackendIntegrationTests/Models/Product.cs:5-7 | A new product has an empty name, price 0 and stock 0. |
| `Products.Stamp` | BackendIntegrationTests/Models/Product.cs:13 | The `yyyyMMddHHmmss` stamp is 14 decimal digits. |
| `Products.StampRoundTrip` | BackendIntegrationTests/Models/Product.cs:13 | Reading a stamp back gives the clock reading it was made from. |
| `Products.ParseStampSound` | BackendIntegrationTests/Models/Product.cs:13 | Every text read as a stamp is the stamp of the reading it yields. |
| `Products.WithUniqueName` | BackendIntegrationTests/Models/Product.cs:9-17 | The copy keeps price and stock. Its name starts with the original name followed by `" - "`, and its length is the original length plus 17. |
| `Products.UniqueNameDecodes` | BackendIntegrationTests/Models/Product.cs:13 | From the unique name, both the original name and the clock reading can be recovered. |

## Left out

- File-system access in `LoadTestData` (path building, `File.Exists`, `ReadAllText`) is replaced by the `file` parameter. `SchemaValidator` and its JSON Schema engine are not part of this model.
- The double-checked `lock` in `EnsureTestDataLoaded` is left out. The model is sequential, so it keeps only the load-once behaviour.
- The `JsonDataReader` state is one object of the model, where the source keeps it in static fields.
- Reference identity of the copies `GetValue` returns is not modelled. JSON values are immutable Dafny values here, so a caller can never change the stored tree through a result.
- The JSON library (Newtonsoft parsing, `DeserializeObject<dynamic>`, `ToObject<dynamic>`) is the `JsonLibrary` parameter. JSON numbers are integers only; floating-point numbers are not modelled.
- `TokenText` renders objects and arrays through the library's `format`. Only strings, integers, booleans and null are rendered in the model itself.
- `RestClientHelper` (network execution, timeout, `Dispose`) is left out. The routes return the request they hand to the client, and `GetToken` takes the client as a function `send`.
- The route methods are `static` in `ProductsRoute` and call instance members of their base class. The model treats them as plain operations.
- `DateTime.Now` is the `now` parameter. `ValidDateTime` checks field ranges only, not the number of days in each month.
- `Product.Price` and `Product.Stock` are 32-bit in C#. They are only copied, never computed, so the model uses unbounded integers.
- Schema constants, test scenarios, runner set-up, configuration and the logging-only `IntegrationTestsSetup` class are data or network-bound assertions, and are not modelled.

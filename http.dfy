/** What the route modules hand to the HTTP client, and what they get back. */
module Http {
  import opened Wrappers
  import opened Json

  datatype Verb = Get | Post

  /**
   * One call to the HTTP client: the verb, the route relative to the base URL, the
   * JSON body (POST only), and the header dictionary (`None`: no dictionary passed).
   */
  datatype Request = Request(
    verb: Verb,
    route: string,
    body: Option<Json>,
    headers: Option<map<string, string>>)

  /** The response as the harness reads it: the success flag and the raw body text (`None`: null). */
  datatype Response = Response(isSuccessful: bool, content: Option<string>)

  /** `string.IsNullOrEmpty`. */
  predicate IsNullOrEmpty(s: Option<string>)
  {
    s.None? || s.value == ""
  }
}

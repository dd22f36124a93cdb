/** The HTTP exchanges of the adapters, reduced to what their code looks at:
    the request they build and the status and decoded body they read back.
    The remote server is a parameter, a function from requests to outcomes. */
module Http {
  import opened PyJson

  datatype Verb = Get | Post

  /** An outgoing request: verb, URL, headers, query parameters, JSON body. */
  datatype Request = Request(
    verb: Verb,
    url: string,
    headers: map<string, string>,
    query: map<string, string>,
    body: Option<Json>)

  /** What the body of a response decodes to with `resp.json()`. */
  datatype Body = NotJson | JsonBody(value: Json)

  /** What a request comes back with: a transport failure (connection
      refused, timeout) or a response with a status code and a body. */
  datatype Outcome = NetworkFailure | Response(status: int, body: Body)

  /** The remote service, whatever it answers to each request. */
  type Server = Request -> Outcome

  /** `requests`' `raise_for_status()` lets a response through unless its
      status is a client or server error (4xx or 5xx). */
  predicate RequestsStatusOk(status: int) {
    !(400 <= status < 600)
  }

  /** `httpx`' `raise_for_status()` lets only a success status (2xx) through. */
  predicate HttpxStatusOk(status: int) {
    200 <= status < 300
  }
}

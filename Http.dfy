/**
 * The HTTP surface of the service reduced to values: what a handler answers,
 * the requests it sends to the other services of the platform, and what
 * comes back from them. Transport, headers other than the ones read, and
 * asynchronous suspension are not modelled.
 */
module Http {
  import opened Wrappers
  import opened Json

  /** What a handler produces: an `HTTPException` (status code and detail) or a JSON body sent with 200. */
  datatype Reply = Rejected(status: int, detail: string) | Replied(body: Json)

  datatype Verb = HttpGet | HttpPost

  /** An outgoing request: method, URL and, for a POST, the JSON payload. */
  datatype HttpRequest = HttpRequest(verb: Verb, url: string, payload: Option<Json>)

  /** The body of a response as `response.json()` sees it: decoded, or the message of the decoding error. */
  datatype Body = Decoded(value: Json) | Undecodable(reason: string)

  /** A response: status code, `content-type` header ("" when absent), raw text, and its decoding. */
  datatype HttpResponse = HttpResponse(status: int, contentType: string, text: string, body: Body)

  /** What sending a request yields: a response, or a transport exception and its message. */
  datatype HttpOutcome = Received(response: HttpResponse) | Raised(reason: string)

  /** `s.startswith(prefix)` */
  predicate StartsWith(s: string, prefix: string) {
    |prefix| <= |s| && s[..|prefix|] == prefix
  }

  /** `if not user_id`: the `x-user-id` header is absent or empty. */
  predicate Authenticated(userId: Option<string>) {
    userId.Some? && userId.value != ""
  }

  const NotAuthenticated: Reply := Rejected(401, "User not authenticated")
}

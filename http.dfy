/** What the HTTP client reports, as far as the callers look at it. */
module Http {
  /** A `reqwest::Error` raised while sending a request or reading a body. */
  datatype FetchError = TransportError

  /** `StatusCode::is_success` */
  predicate IsSuccess(status: nat) {
    200 <= status <= 299
  }
}

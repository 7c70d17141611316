/**
  The error type of the Kubernetes tools (src/kube/error.rs), and the step every
  tool shares: a response fetched from the API server is decoded from JSON,
  a transport error passes through unchanged and a body that does not decode
  becomes a JSON error. The payloads of the transport and JSON errors come from
  libraries outside this model and are kept only as their message text.
 */
module KubeError {
  import opened Wrappers

  datatype KubeAgentError =
    | HttpError(detail: string)
    | JsonParseError(detail: string)
    | ParseError(message: string)

  /** `make_request(endpoint)`: the response body, or the transport error. */
  type Fetch = string -> Result<string, KubeAgentError>

  /** `serde_json::from_str` into a list type: the decoded value, or the decoder's message. */
  type Decode<T> = string -> Result<T, string>

  /**
    `make_request(..).await?` followed by `serde_json::from_str(..).map_err(KubeAgentError::from)?`:
    the first error wins, and a decoding error is always reported as a JSON error.
   */
  function DecodeResponse<T>(response: Result<string, KubeAgentError>, decode: Decode<T>): (r: Result<T, KubeAgentError>)
    ensures response.Failure? ==> r == Failure(response.error)
    ensures response.Success? && decode(response.value).Failure? ==> r == Failure(JsonParseError(decode(response.value).error))
    ensures r.Success? <==> response.Success? && decode(response.value).Success?
    ensures r.Success? ==> r.value == decode(response.value).value
  {
    match response
    case Failure(e) => Failure(e)
    case Success(body) =>
      match decode(body)
      case Failure(msg) => Failure(JsonParseError(msg))
      case Success(v) => Success(v)
  }
}

/**
  The response side of the hand-written HTTP/1.1 server: the connection's
  outgoing byte stream and `send_response`, which frames a status and a body
  as a status line, one Content-Length header, a blank line and the body.
  Both server iterations (src/server/mod.rs and the older src/server.rs)
  frame responses in exactly this way.
 */
module HttpWire {
  import opened Utf8
  import opened Numbers

  /** A response before framing: its status (code and reason phrase) and its body text. */
  datatype Response = Response(status: string, body: string)

  const OK := "200 OK"
  const BAD_REQUEST := "400 Bad Request"
  const UNAUTHORIZED := "401 Unauthorized"
  const FORBIDDEN := "403 Forbidden"
  const NOT_FOUND := "404 Not Found"
  const METHOD_NOT_ALLOWED := "405 Method Not Allowed"
  const INTERNAL_SERVER_ERROR := "500 Internal Server Error"

  /** Bodies both server iterations send outside the chat handler. */
  const INVALID_REQUEST_MESSAGE := "Invalid request"
  const FAVICON_MESSAGE := "Favicon not found"
  const HEALTHY_BODY := "{\"healthy\": true}"

  /** The status line and the single header written before a body of `length` bytes. */
  function ResponseHead(status: string, length: nat): string {
    "HTTP/1.1 " + status + "\r\nContent-Length: " + DecimalString(length) + "\r\n\r\n"
  }

  /** The text `send_response` formats: the head, declaring the body's length in bytes, then the body. */
  function ResponseText(status: string, body: string): string {
    ResponseHead(status, |Encode(body)|) + body
  }

  /**
    The bytes `send_response` writes: the encoded head followed by exactly the
    body's bytes, and the decimal number in the head is the count of those bytes.
   */
  function ResponseBytes(status: string, body: string): (bs: seq<byte>)
    ensures var head := Encode(ResponseHead(status, |Encode(body)|));
            bs == head + Encode(body) && |bs| - |head| == |Encode(body)|
    ensures DigitsValue(DecimalString(|Encode(body)|)) == |bs| - |Encode(ResponseHead(status, |Encode(body)|))|
  {
    EncodeConcat(ResponseHead(status, |Encode(body)|), body);
    Encode(ResponseText(status, body))
  }

  /** The write half of a client connection: everything sent on it so far. */
  class Stream {
    var sent: seq<byte>

    constructor ()
      ensures sent == []
    {
      sent := [];
    }
  }

  /** The bytes that carry `r`. */
  function Wire(r: Response): seq<byte> {
    ResponseBytes(r.status, r.body)
  }

  /** `send_response`: format the response and write all of its bytes to the stream. */
  method SendResponse(stream: Stream, status: string, body: string)
    modifies stream
    ensures stream.sent == old(stream.sent) + Wire(Response(status, body))
  {
    var response := ResponseText(status, body);
    stream.sent := stream.sent + Encode(response);
  }
}

/**
 * The boundary of the HTTP uploader the buffers call: which request it would
 * issue for a payload and when a call counts as a success. Compression, HTTP
 * and the network are not modelled; the transport is a parameter.
 */
module Upload {
  import opened Wrappers
  import opened Bytes

  /** Payloads longer than this are gzip-compressed (`2 << 16`). */
  const GzipThreshold: nat := 131072

  datatype Encoding = Identity | Gzip

  /**
   * The POST the uploader issues: the payload (compressed on the wire when
   * `encoding` is Gzip, which also sets Content-Encoding), and the value of the
   * X-Sumo-Name header if a name was passed.
   */
  datatype Request = Request(payload: seq<byte>, encoding: Encoding, nameHeader: Option<string>)

  /** What the transport did: a transport-level failure, or an HTTP status line. */
  datatype Response = TransportError(err: Error) | Status(code: int, text: string)

  /** The request Send issues for `input` (None: a nil slice) and the optional name argument. */
  function BuildRequest(input: Option<seq<byte>>, name: Option<string>): (r: Option<Request>)
    ensures r.None? <==> input.None?
    ensures r.Some? ==> r.value.payload == input.value && r.value.nameHeader == name
    ensures r.Some? ==> (r.value.encoding == Gzip <==> |input.value| > GzipThreshold)
  {
    match input
    case None => None
    case Some(bytes) => Some(Request(bytes, if |bytes| > GzipThreshold then Gzip else Identity, name))
  }

  /** Send(input, name...): nil is a no-op; otherwise success exactly when the collector answers 200. */
  function Deliver(input: Option<seq<byte>>, name: Option<string>, transport: Request -> Response): (err: Option<Error>)
    ensures input.None? ==> err.None?
    ensures input.Some? ==>
      (err.None? <==> transport(BuildRequest(input, name).value).Status? && transport(BuildRequest(input, name).value).code == 200)
  {
    match BuildRequest(input, name)
    case None => None
    case Some(req) =>
      match transport(req)
      case TransportError(e) => Some(e)
      case Status(code, text) => if code == 200 then None else Some(Error(text))
  }

  /** A payload of exactly the threshold goes out plain; one byte more goes out compressed. */
  lemma ThresholdBoundary(small: seq<byte>, large: seq<byte>, name: Option<string>)
    requires |small| == GzipThreshold && |large| == GzipThreshold + 1
    ensures BuildRequest(Some(small), name).value.encoding == Identity
    ensures BuildRequest(Some(large), name).value.encoding == Gzip
  {
  }

  /** Only nil is skipped: an empty, non-nil body (such as the join of no lines) is still posted. */
  lemma EmptyBodyIsPosted(name: Option<string>, transport: Request -> Response)
    ensures BuildRequest(Some([]), name) == Some(Request([], Identity, name))
    ensures Deliver(Some([]), name, transport).None? <==> transport(Request([], Identity, name)).Status? && transport(Request([], Identity, name)).code == 200
  {
  }
}

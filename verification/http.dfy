/**
  The abstract transport beneath the client. A request is a method, a resource
  path (one segment per `Res`/`Id` step), a query map and whether a payload is
  attached; the transport is a pure oracle from the request and the headers the
  client sets to the response. A response either never completed a call
  (`Failed`, possibly after recording a raw status) or carries the raw status,
  the raw body and the value the transport decoded into the caller's target.
*/
module Http {
  import opened Results
  import opened Entities

  newtype byte = b: int | 0 <= b < 0x100

  /** The four calls the client makes (`DoGet`, `DoPost`, `DoPut`, `DoDelete`). */
  datatype Method = Get | Post | Put | Delete

  datatype Request = Request(verb: Method, path: seq<string>, query: map<string, string>, hasPayload: bool)

  type Headers = map<string, string>

  /** What the HTTP layer recorded about a reply. */
  datatype Raw = Raw(status: int, body: seq<byte>)

  /** The JSON value decoded into the caller's target, by shape. */
  datatype Payload =
    | NoPayload
    | ChangesetPayload(changeset: Changeset)
    | ActivitiesPayload(diffs: seq<Diff>)
    | InfoPayload(info: PullRequestInfo)
    | FilesPayload(files: seq<ReviewFile>)

  datatype Response =
    | Failed(cause: string, recorded: Option<Raw>)
    | Replied(raw: Raw, payload: Payload)
  {
    /** The status the request object holds after the call, if any reply was recorded. */
    function Status(): Option<int> {
      match this
      case Failed(_, r) => if r.Some? then Some(r.value.status) else None
      case Replied(r, _) => Some(r.status)
    }

    /** The decoded target; a call that failed leaves it empty. */
    function Decoded(): Payload {
      if Replied? then payload else NoPayload
    }
  }

  type Transport = (Headers, Request) -> Response

  /** The client's error taxonomy: transport errors pass through, the rest are classified statuses. */
  datatype Error =
    | TransportError(cause: string)
    | StashApiError(body: seq<byte>)
    | UnexpectedStatusCode(code: int)

  type Outcome<T> = Result<T, Error>

  /** The result of an operation together with the requests it issued, in order. */
  datatype Run<T> = Run(result: Outcome<T>, sent: seq<Request>)
}

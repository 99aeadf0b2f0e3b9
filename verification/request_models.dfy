/** The request records of app/models/request.py: the status enumeration, the
    record types the router reads and writes, and the field bounds that the
    validation layer enforces before a handler ever sees a value. */
module RequestModels {
  import opened Wrappers

  /** A request's ObjectId, modelled as an opaque number. */
  type RequestId = nat

  /** The three states of a request; a str-valued enumeration in the source. */
  datatype RequestStatus = Pending | Completed | Rejected

  /** A freshly built Request starts out pending. */
  const DefaultStatus: RequestStatus := Pending

  /** The string each status is stored and compared as. */
  function StatusValue(s: RequestStatus): (v: string)
  {
    match s
    case Pending => "pending"
    case Completed => "completed"
    case Rejected => "rejected"
  }

  /** The enumeration lookup by value: the only strings that name a status. */
  function ParseStatus(v: string): (st: Option<RequestStatus>)
  {
    if v == "pending" then Some(Pending)
    else if v == "completed" then Some(Completed)
    else if v == "rejected" then Some(Rejected)
    else None
  }

  /** Every status is exactly one of the three values, and the value names it back. */
  lemma StatusValueRoundTrip(s: RequestStatus, v: string)
    ensures ParseStatus(StatusValue(s)) == Some(s)
    ensures ParseStatus(v) == Some(s) <==> StatusValue(s) == v
  {
  }

  /** The ObjectId.is_valid verdict on a request id string from a URL or a body:
      either it does not parse, or it names a RequestId. */
  datatype ObjectIdArg = Malformed | WellFormed(id: RequestId)

  /** The song-request content the queue carries through unchanged. */
  datatype Payload = Payload(
    songTitle: string,
    songArtist: string,
    requesterName: string,
    message: Option<string>)

  predicate ValidUsername(u: string)
  {
    3 <= |u| <= 30
  }

  predicate ValidPayload(p: Payload)
  {
    && 1 <= |p.songTitle| <= 200
    && 1 <= |p.songArtist| <= 200
    && 1 <= |p.requesterName| <= 100
    && (p.message.Some? ==> |p.message.value| <= 500)
  }

  /** A stored request; timestamps are clock readings. */
  datatype Request = Request(
    id: RequestId,
    artistUsername: string,
    payload: Payload,
    status: RequestStatus,
    queuePosition: int,
    createdAt: int,
    updatedAt: int)

  predicate ValidRequest(r: Request)
  {
    ValidUsername(r.artistUsername) && ValidPayload(r.payload) && r.queuePosition >= 1
  }

  /** The body of a create call. */
  datatype RequestCreate = RequestCreate(artistUsername: string, payload: Payload)

  predicate ValidRequestCreate(c: RequestCreate)
  {
    ValidUsername(c.artistUsername) && ValidPayload(c.payload)
  }

  /** The body of an update call: both fields optional. */
  datatype RequestUpdate = RequestUpdate(status: Option<RequestStatus>, queuePosition: Option<int>)

  predicate ValidRequestUpdate(u: RequestUpdate)
  {
    u.queuePosition.Some? ==> u.queuePosition.value >= 1
  }

  /** One item of a reorder call. */
  datatype RequestReorder = RequestReorder(requestId: ObjectIdArg, newPosition: int)

  predicate ValidRequestReorder(item: RequestReorder)
  {
    item.newPosition >= 1
  }

  /** The public view of a request that the handlers return. */
  datatype RequestPublic = RequestPublic(
    id: RequestId,
    songTitle: string,
    songArtist: string,
    requesterName: string,
    message: Option<string>,
    status: RequestStatus,
    queuePosition: int,
    createdAt: int)

  function ToPublic(r: Request): (p: RequestPublic)
  {
    RequestPublic(r.id, r.payload.songTitle, r.payload.songArtist, r.payload.requesterName,
                  r.payload.message, r.status, r.queuePosition, r.createdAt)
  }

  /** Building a Request from a create body at a queue position: the record is
      pending, carries the two clock readings its timestamp defaults take, and
      passes the Request bounds exactly when the body passed its own and the
      position is at least 1. */
  function NewRequest(id: RequestId, c: RequestCreate, position: int, createdAt: int, updatedAt: int): (r: Request)
    ensures r.status == DefaultStatus
    ensures r.id == id && r.artistUsername == c.artistUsername && r.payload == c.payload
    ensures r.queuePosition == position && r.createdAt == createdAt && r.updatedAt == updatedAt
    ensures ValidRequest(r) <==> ValidRequestCreate(c) && position >= 1
  {
    Request(id, c.artistUsername, c.payload, DefaultStatus, position, createdAt, updatedAt)
  }
}

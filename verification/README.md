# Song-request queue: a Dafny model

This project models the core of a live song-request backend. An audience
submits song requests to a performing artist, and each artist keeps a queue
of pending requests ordered by `queue_position`. The artist can update, delete
and reorder the requests in that queue. The model covers three parts:

- **The request handlers** of `app/routers/requests.py`: create, list, update,
  delete (with the queue repair that follows a deletion) and batch reorder.
  They act on an in-memory requests collection, which is the class
  `RequestsRouter.RequestQueue`. The class holds a map from ObjectId to stored
  record, the artists collection reduced to `username -> is_active`, and a
  source of fresh ids. Each handler is an imperative method. It runs the
  source's checks in the source's order, raises the same error kinds (400,
  404, 403, 500) and performs the same store writes. The one exception is
  create: as written it fails before its insert (see "Left out"), and the
  model describes the append it evidently means. The state each write
  produces is named by a function in `QueueSpec`: `CloseGap` for the
  `update_many` with `$inc: -1`, `ApplyUpdate`/`UpdateOne` for the `$set`, and
  `ApplyReorder` for the sequence of `update_one` writes.
- **The record definitions** of `app/models/request.py`: the status
  enumeration and its string values, the record types, and the field bounds
  as validity predicates (`ValidRequest`, `ValidRequestCreate`,
  `ValidRequestUpdate`, `ValidRequestReorder`, `ValidPayload`).
- **The track shaping** of `app/services/spotify.py`: the search-limit clamp,
  the primary-artist fallback, the comma-joined artist list, the two
  album-image choices, and the loops that build the simplified tracks. The
  Spotify client's answers are inputs to the model.

The queue properties are stated over `QueueSpec.Dense(s, artist, n)`. It
says that the artist's pending positions are exactly 1..n, each held once.
The lemmas show four things:

- create preserves density;
- delete of a pending record preserves it;
- the source's three quirks break it: a status change through update, the
  delete of a non-pending record, and an unvalidated reorder;
- no handler touches another artist's records.

Files: `wrappers.dfy` (Option, Result), `request_models.dfy`,
`queue_spec.dfy`, `requests_router.dfy`, `spotify.dfy`.

## Model

| member | source | states |
|---|---|---|
| `RequestModels.StatusValueRoundTrip` | app/models/request.py:8-11 | a status is exactly one of pending/completed/rejected; its value string parses back to it, and a string parses to a status exactly when it is that status's value |
| `RequestModels.NewRequest` | app/models/request.py:13-24 | a freshly built Request has the default status Pending, carries the create body's owner and payload, and carries the two clock readings of its timestamp defaults as created_at and updated_at; it satisfies the Request bounds (owner length 3..30, title/artist 1..200, requester 1..100, message at most 500, position at least 1) exactly when the create body satisfies its own bounds and the position is at least 1 |
| `QueueSpec.NextPositionAbove` | app/routers/requests.py:26-30 | the position create assigns is at least 1 and lies strictly above every pending position of that artist |
| `QueueSpec.AppendKeepsDensity` | app/routers/requests.py:26-48 | on a queue dense with n entries, max pending position + 1 equals n + 1, and inserting the new pending record there gives a queue dense with n + 1 entries |
| `QueueSpec.CloseGapRestoresDensity` | app/routers/requests.py:266-276 | removing a pending record from a queue dense with n entries and shifting down the pending records above its position gives a queue dense with n - 1 entries |
| `QueueSpec.CloseGapKeepsWellFormed` | app/routers/requests.py:269-276 | the repair never drives a position below 1, keeps every record valid and keeps the set of ids |
| `QueueSpec.DeleteIsolation` | app/routers/requests.py:211-223 | deleting one artist's record and repairing that artist's queue leaves every other artist's records identical |
| `QueueSpec.DeleteNonPendingBreaksDensity` | app/routers/requests.py:220-223 | because the repair uses the deleted record's position whatever its status, deleting a completed or rejected record at a position p below n puts two pending records at p, so the queue is then dense for no length |
| `QueueSpec.ApplyUpdateKeeps` | app/routers/requests.py:144-155 | an update changes only the supplied status and position and updated_at; id, owner, payload and created_at are kept, and a valid record with a valid update body stays valid |
| `QueueSpec.StatusChangeLeavesGap` | app/routers/requests.py:145-155 | moving a pending record at p below n out of Pending through update does not repair the queue: position p stays vacant while n is still held, so the queue is dense for no length |
| `QueueSpec.FirstReorderErrorIsFirst` | app/routers/requests.py:236-254 | reorder validation fails exactly when some item has a malformed, unknown or foreign id, and then it reports the error of the earliest such item |
| `QueueSpec.ApplyReorderKeys` | app/routers/requests.py:257-261 | the reorder writes keep the set of stored ids |
| `QueueSpec.ApplyReorderLastWins` | app/routers/requests.py:257-261 | after the reorder writes, a listed record holds the new position and the clock reading of the last item naming it and is otherwise unchanged; an unlisted record is unchanged |
| `QueueSpec.LastNaming` | app/routers/requests.py:257-261 | the index of the last reorder item naming a record, or none when no item names it |
| `QueueSpec.ApplyReorderKeepsWellFormed` | app/routers/requests.py:257-261 | writing reorder positions that are at least 1 keeps every position at least 1 |
| `QueueSpec.ReorderIsolation` | app/routers/requests.py:236-261 | a reorder that passed validation leaves every other artist's records identical |
| `QueueSpec.ReorderMayDuplicate` | app/routers/requests.py:236-261 | reorder checks neither status nor permutation: moving the pending record at q >= 2 to position 1 passes validation and leaves two pending records at 1 |
| `QueueSpec.DenseListingIsOneToN` | app/routers/requests.py:86-91 | listing the pending requests of a queue dense with n entries yields exactly n entries at positions 1, 2, ..., n in that order |
| `RequestsRouter.InsertionPoint` | app/routers/requests.py:91 | the index where a record enters a position-sorted listing: every entry before it is at or below its position, every entry from it on is above |
| `RequestsRouter.RequestQueue.NextQueuePosition` | app/routers/requests.py:26-30 | the scan for the artist's highest pending position returns 1 for an artist with no pending request, otherwise that maximum + 1 |
| `RequestsRouter.RequestQueue.Create` | app/routers/requests.py:12-70 | 404 and no change unless the artist exists and is active; otherwise exactly one record is added under a fresh id, pending, at the next position, with every existing record unchanged, and its public view is returned (the intended append; see "Left out") |
| `RequestsRouter.RequestQueue.FindSorted` | app/routers/requests.py:85-91 | the query returns each of the artist's records that pass the status filter exactly once, as stored, in non-decreasing position order |
| `RequestsRouter.RequestQueue.List` | app/routers/requests.py:72-111 | 404 exactly when the artist is unknown (activity is not checked); otherwise the public views of exactly that artist's records, restricted to the filter status (pending when no filter is given) unless the filter is "all", each once, in non-decreasing position order |
| `RequestsRouter.RequestQueue.Update` | app/routers/requests.py:113-179 | 400 for a malformed id, 404 for an unknown id, 403 for another artist's record, each with no change; otherwise only that record's supplied fields and updated_at change (a 500 when that write would change nothing); other artists' records are untouched |
| `RequestsRouter.RequestQueue.ReorderQueueAfterDeletion` | app/routers/requests.py:266-276 | exactly the artist's pending records above the deleted position drop by 1; every other record is unchanged |
| `RequestsRouter.RequestQueue.Delete` | app/routers/requests.py:181-225 | the same three checks with no change on failure; otherwise exactly the target record is removed and the caller's queue is repaired at the removed record's position; other artists' records are untouched |
| `RequestsRouter.RequestQueue.ValidateReorder` | app/routers/requests.py:235-254 | the validation loop returns the error of the first failing item, or none |
| `RequestsRouter.RequestQueue.Reorder` | app/routers/requests.py:227-264 | a failing item means its error and no record changed (all-or-nothing); otherwise the writes of all items in list order, each with its own clock reading, and the caller's pending queue is returned sorted; other artists' records are untouched |
| `SpotifyService.EffectiveLimit` | app/services/spotify.py:21-34 | the requested limit defaults to 20; the limit sent to the search never exceeds 50, equals the requested limit exactly when that is at most 50, and is 50 otherwise |
| `SpotifyService.JoinSnoc` | app/services/spotify.py:45 | the artist names appear in the joined string in list order, separated by the separator |
| `SpotifyService.JoinLength` | app/services/spotify.py:45 | the length of the joined string is the parts' total length plus one separator length between each two consecutive parts |
| `SpotifyService.PrimaryArtistLeadsAllArtists` | app/services/spotify.py:42-45 | with no artists the primary artist is 'Unknown Artist' and the joined list is empty; otherwise the primary artist's name begins the joined list |
| `SpotifyService.SmallestImageIndex` | app/services/spotify.py:50-52 | the image a stable sort by width brings to the front: one of least width, and the first such in list order |
| `SpotifyService.SearchAlbumImage` | app/services/spotify.py:47-52 | the search entry has no album image exactly when the album has no images; otherwise it is the url of the first image of least width |
| `SpotifyService.FirstWideIndex` | app/services/spotify.py:107-110 | the index of the first image at least 300 wide, or the list length when there is none |
| `SpotifyService.DetailAlbumImage` | app/services/spotify.py:104-112 | get_track's image: none without images; otherwise the url of the first image at least 300 wide, falling back to the first image's url when there is none or its url is empty |
| `SpotifyService.SearchEntryFields` | app/services/spotify.py:54-65 | a search entry copies id, name, album name, preview url, external url, duration and popularity unchanged, names the primary and all artists, and has an album image exactly when the album has images |
| `SpotifyService.SimplifySearchResults` | app/services/spotify.py:39-66 | exactly one simplified entry per input track, in input order |
| `SpotifyService.GetTrack` | app/services/spotify.py:92-126 | a missing track gives None; otherwise the track's entry with the medium-size album image and the album's release date |

## Left out

- HTTP wiring, CORS and authentication. The authenticated artist of
  `get_current_active_artist` is the `caller` parameter. `Reorder` requires
  that this caller is a registered, active artist, because it ends with a
  call to the listing handler, which returns 404 for an unknown artist.
  Body validation is a `requires` on each handler. The framework rejects
  invalid bodies before the handler runs.
- The route `PUT /reorder` is declared after `PUT /{request_id}` and may be
  shadowed by it. The model treats this as a routing concern and models the
  reorder handler on its own.
- `ObjectId.is_valid` and the ObjectId parse belong to the bson library. A
  handler receives their verdict as `ObjectIdArg` (`Malformed` or
  `WellFormed(id)`). Id generation is a counter (`nextId`).
- MongoDB itself is left out: the client, the indexes and the configuration.
  The collection is an in-memory map. Concurrency is left out too. Create
  reads the highest position and inserts in two separate steps, and
  `update_many` is atomic only per document. The model runs every handler
  sequentially.
- Timestamps are integers, and each `datetime.utcnow()` reading is a
  parameter. `Create` takes the two readings of the `created_at` and
  `updated_at` defaults (app/models/request.py:23-24) separately. `Reorder`
  takes one reading per item (app/routers/requests.py:260). `Update` reads
  the clock once (line 145) and takes one `now`. The model does not relate
  the readings to each other, so it does not state that they increase.
- `tip_amount` is left out because it is a float.
- `RequestsRouter.RequestQueue.Create` models the intended append, not the
  code as written. `create_request` reads `spotify_track_id` and three more
  Spotify fields (app/routers/requests.py:41-44), and `RequestCreate`
  (app/models/request.py:31-37) declares none of them. So as written, every
  call that passes the artist check fails with an attribute error, answered
  as a 500, before `insert_one` (line 48) runs: the source never inserts a
  request. The model leaves these fields out of the payload and inserts the
  record the handler builds.
- Some 500 branches cannot be reached when handlers run sequentially, so the
  model leaves them out: a falsy `inserted_id` (line 50) and a
  `deleted_count` of 0 (line 214). The 500 for an update that modifies
  nothing is modelled.
- Mongo orders records with equal positions in no particular way. The
  listing is specified only up to the order of equal positions.
- `RequestsRouter.RequestQueue.List` and `FindSorted` check the status filter
  as an arbitrary string. The source passes the query string straight to
  the store, so an unknown filter returns an empty list.
- Search image: the model does not run the stable sort of
  app/services/spotify.py:51. It models the sort's first element directly
  (`SmallestImageIndex`).
- The Spotify network calls, `SpotifyService.__init__` (credentials from the
  environment) and the mapping from exceptions to 503/500 are left out. The
  search answer and the lookup answer are inputs. A falsy lookup answer is
  `None`.
- `test_spotify.py`, `app/models/artist.py` beyond `username -> is_active`,
  and the auth and artist routers are not part of this model.
- The code keeps the queue in order only partly, and the model follows the
  code:
  - create places a request at the highest pending position + 1, not at
    the number of pending requests + 1;
  - update repairs nothing when a status leaves Pending;
  - update rejects no status change, so any status may follow any other;
  - reorder does not check that the named requests are pending, nor that
    the new positions form a permutation;
  - the listing breaks no ties between equal positions, by creation time or
    otherwise.

  The lemmas `StatusChangeLeavesGap`, `DeleteNonPendingBreaksDensity` and
  `ReorderMayDuplicate` show what that means for the queue.

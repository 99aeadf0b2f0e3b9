/** The request handlers of app/routers/requests.py over an in-memory requests
    collection. Each handler runs the same checks, in the same order, as the
    source, raises the same error kinds, and performs the same writes; the
    QueueSpec functions name the state each write produces. */
module RequestsRouter {
  import opened Wrappers
  import opened RequestModels
  import opened QueueSpec

  /** The index at which a record at position pos enters a listing sorted by
      position, after every entry at the same position. */
  method InsertionPoint(docs: seq<Request>, pos: int) returns (k: nat)
    requires SortedByPosition(docs)
    ensures k <= |docs|
    ensures forall i :: 0 <= i < k ==> docs[i].queuePosition <= pos
    ensures forall i :: k <= i < |docs| ==> docs[i].queuePosition > pos
  {
    k := 0;
    while k < |docs| && docs[k].queuePosition <= pos
      invariant k <= |docs|
      invariant forall i :: 0 <= i < k ==> docs[i].queuePosition <= pos
    {
      k := k + 1;
    }
  }

  /** Inserting r at its insertion point keeps the listing sorted, adds r and
      nothing else, and keeps ids distinct when r's id was not yet listed. */
  lemma InsertKeepsOrder(docs: seq<Request>, k: nat, r: Request)
    requires k <= |docs| && SortedByPosition(docs)
    requires forall i :: 0 <= i < k ==> docs[i].queuePosition <= r.queuePosition
    requires forall i :: k <= i < |docs| ==> docs[i].queuePosition > r.queuePosition
    ensures var d := docs[..k] + [r] + docs[k..];
      && SortedByPosition(d)
      && (forall x :: x in d <==> x in docs || x == r)
      && (DistinctIds(docs) && (forall x :: x in docs ==> x.id != r.id) ==> DistinctIds(d))
  {
    InsertSorted(docs, k, r);
    InsertMembers(docs, k, r);
    if DistinctIds(docs) && (forall x :: x in docs ==> x.id != r.id) {
      InsertDistinct(docs, k, r);
    }
  }

  lemma InsertSorted(docs: seq<Request>, k: nat, r: Request)
    requires k <= |docs| && SortedByPosition(docs)
    requires forall i :: 0 <= i < k ==> docs[i].queuePosition <= r.queuePosition
    requires forall i :: k <= i < |docs| ==> docs[i].queuePosition > r.queuePosition
    ensures SortedByPosition(docs[..k] + [r] + docs[k..])
  {
    var d := docs[..k] + [r] + docs[k..];
    forall i, j | 0 <= i < j < |d| ensures d[i].queuePosition <= d[j].queuePosition {
      var i' := if i < k then i else i - 1;
      var j' := if j < k then j else j - 1;
      if i != k { assert d[i] == docs[i']; }
      if j != k { assert d[j] == docs[j']; }
    }
  }

  lemma InsertMembers(docs: seq<Request>, k: nat, r: Request)
    requires k <= |docs|
    ensures forall x :: x in docs[..k] + [r] + docs[k..] <==> x in docs || x == r
  {
    assert docs == docs[..k] + docs[k..];
  }

  lemma InsertDistinct(docs: seq<Request>, k: nat, r: Request)
    requires k <= |docs| && DistinctIds(docs)
    requires forall x :: x in docs ==> x.id != r.id
    ensures DistinctIds(docs[..k] + [r] + docs[k..])
  {
    var d := docs[..k] + [r] + docs[k..];
    forall i, j | 0 <= i < j < |d| ensures d[i].id != d[j].id {
      if i != k && j != k {
        var i' := if i < k then i else i - 1;
        var j' := if j < k then j else j - 1;
        assert d[i] == docs[i'] && d[j] == docs[j'];
      } else if i == k {
        assert d[j] == docs[j - 1] && docs[j - 1] in docs;
      } else {
        assert d[i] == docs[i] && docs[i] in docs;
      }
    }
  }

  /** The public views of a query result, taken in order, form a listing. */
  lemma PublicViewsListing(s: Store, artist: string, statusFilter: string,
                           docs: seq<Request>, out: seq<RequestPublic>)
    requires IsQueryResult(s, artist, statusFilter, docs)
    requires |out| == |docs| && forall j :: 0 <= j < |docs| ==> out[j] == ToPublic(docs[j])
    ensures IsListing(s, artist, statusFilter, out)
  {
    forall id | id in s && MatchesFilter(s[id], artist, statusFilter)
      ensures exists j :: 0 <= j < |out| && out[j].id == id
    {
      var j :| 0 <= j < |docs| && docs[j].id == id;
      assert out[j].id == id;
    }
  }

  /** The requests collection together with the artists collection it is
      checked against (reduced to username and is_active). */
  class RequestQueue {
    var requests: Store
    var artists: map<string, bool>
    /** Where the next generated ObjectId comes from. */
    var nextId: nat

    ghost predicate Valid()
      reads this
    {
      WellFormedStore(requests) && forall id :: id in requests ==> id < nextId
    }

    constructor (artists: map<string, bool>)
      ensures Valid()
      ensures this.artists == artists && requests == map[]
    {
      this.artists := artists;
      requests := map[];
      nextId := 0;
    }

    /** The lookup of the artist's pending request with the highest position:
        one past it, or 1 when the artist has no pending request. */
    method NextQueuePosition(artist: string) returns (pos: int)
      requires Valid()
      ensures IsNextPosition(requests, artist, pos)
      ensures pos >= 1
    {
      var found := false;
      var max := 0;
      var keys := requests.Keys;
      while keys != {}
        invariant keys <= requests.Keys
        invariant !found ==> forall id :: id in requests && id !in keys ==> !InQueue(requests[id], artist)
        invariant found ==> exists id :: id in requests && id !in keys && InQueue(requests[id], artist)
                                         && requests[id].queuePosition == max
        invariant found ==> forall id :: id in requests && id !in keys && InQueue(requests[id], artist)
                                         ==> requests[id].queuePosition <= max
      {
        var id :| id in keys;
        var r := requests[id];
        if InQueue(r, artist) && (!found || r.queuePosition > max) {
          found, max := true, r.queuePosition;
        }
        keys := keys - {id};
      }
      if found {
        var w :| w in requests && InQueue(requests[w], artist) && requests[w].queuePosition == max;
        assert ValidRequest(requests[w]);
        pos := max + 1;
      } else {
        pos := 1;
      }
    }

    /** create_request: a 404 unless the artist exists and is active; otherwise
        exactly one new pending record, at the next queue position, under a
        fresh id. createdAt and updatedAt are the two clock readings taken by
        the record's timestamp defaults. */
    method Create(c: RequestCreate, createdAt: int, updatedAt: int) returns (res: Result<RequestPublic, Error>)
      requires Valid() && ValidRequestCreate(c)
      modifies this`requests, this`nextId
      ensures Valid()
      ensures res.Failure? <==> !ActiveArtist(artists, c.artistUsername)
      ensures res.Failure? ==> res.error == NotFound && requests == old(requests) && nextId == old(nextId)
      ensures res.Success? ==>
        var id := old(nextId);
        && id !in old(requests) && id in requests
        && requests == old(requests)[id := requests[id]]
        && requests[id] == NewRequest(id, c, requests[id].queuePosition, createdAt, updatedAt)
        && IsNextPosition(old(requests), c.artistUsername, requests[id].queuePosition)
        && res.value == ToPublic(requests[id])
      ensures forall other :: other != c.artistUsername ==> QueueOf(requests, other) == QueueOf(old(requests), other)
    {
      if !ActiveArtist(artists, c.artistUsername) {
        return Failure(NotFound);
      }
      var pos := NextQueuePosition(c.artistUsername);
      var id := nextId;
      var r := NewRequest(id, c, pos, createdAt, updatedAt);
      forall other | other != c.artistUsername
        ensures QueueOf(requests[id := r], other) == QueueOf(requests, other)
      {
        ReplaceIsolation(requests, id, r, other);
      }
      requests := requests[id := r];
      nextId := nextId + 1;
      res := Success(ToPublic(r));
    }

    /** The store's find on (artist, filter) sorted by queue_position. */
    method FindSorted(artist: string, statusFilter: string) returns (docs: seq<Request>)
      requires Valid()
      ensures IsQueryResult(requests, artist, statusFilter, docs)
    {
      docs := [];
      var keys := requests.Keys;
      while keys != {}
        invariant keys <= requests.Keys
        invariant forall x :: x in docs ==>
          x.id in requests && x.id !in keys && requests[x.id] == x && MatchesFilter(x, artist, statusFilter)
        invariant forall id :: id in requests && id !in keys && MatchesFilter(requests[id], artist, statusFilter) ==>
          requests[id] in docs
        invariant DistinctIds(docs) && SortedByPosition(docs)
      {
        var id :| id in keys;
        var r := requests[id];
        keys := keys - {id};
        if MatchesFilter(r, artist, statusFilter) {
          var k := InsertionPoint(docs, r.queuePosition);
          InsertKeepsOrder(docs, k, r);
          docs := docs[..k] + [r] + docs[k..];
        }
      }
      forall id | id in requests && MatchesFilter(requests[id], artist, statusFilter)
        ensures exists i :: 0 <= i < |docs| && docs[i].id == id
      {
        var i :| 0 <= i < |docs| && docs[i] == requests[id];
      }
      forall i | 0 <= i < |docs|
        ensures docs[i].id in requests && requests[docs[i].id] == docs[i] && MatchesFilter(docs[i], artist, statusFilter)
      {
        assert docs[i] in docs;
      }
    }

    /** get_artist_requests: a 404 for an unknown artist (activity is not
        checked); otherwise the public views of the artist's records that pass
        the filter, sorted by queue position. */
    method List(artist: string, statusFilter: string := DefaultStatusFilter) returns (res: Result<seq<RequestPublic>, Error>)
      requires Valid()
      ensures res.Failure? <==> artist !in artists
      ensures res.Failure? ==> res.error == NotFound
      ensures res.Success? ==> IsListing(requests, artist, statusFilter, res.value)
    {
      if artist !in artists {
        return Failure(NotFound);
      }
      var docs := FindSorted(artist, statusFilter);
      var out: seq<RequestPublic> := [];
      var i := 0;
      while i < |docs|
        invariant i <= |docs| && |out| == i
        invariant forall j :: 0 <= j < i ==> out[j] == ToPublic(docs[j])
      {
        out := out + [ToPublic(docs[i])];
        i := i + 1;
      }
      PublicViewsListing(requests, artist, statusFilter, docs, out);
      res := Success(out);
    }

    /** update_request: the ownership checks, then the $set of the supplied
        fields and updated_at; a 500 when that write changes nothing. */
    method Update(requestId: ObjectIdArg, u: RequestUpdate, caller: string, now: int)
      returns (res: Result<RequestPublic, Error>)
      requires Valid() && ValidRequestUpdate(u)
      modifies this`requests
      ensures Valid()
      ensures CheckOwnership(old(requests), requestId, caller).Some? ==>
        res == Failure(CheckOwnership(old(requests), requestId, caller).value) && requests == old(requests)
      ensures CheckOwnership(old(requests), requestId, caller).None? ==>
        var id := requestId.id;
        if ApplyUpdate(old(requests)[id], u, now) == old(requests)[id]
        then res == Failure(InternalError) && requests == old(requests)
        else requests == UpdateOne(old(requests), id, u, now) && res == Success(ToPublic(requests[id]))
      ensures forall other :: other != caller ==> QueueOf(requests, other) == QueueOf(old(requests), other)
    {
      var e := CheckOwnership(requests, requestId, caller);
      if e.Some? {
        return Failure(e.value);
      }
      var id := requestId.id;
      var updated := ApplyUpdate(requests[id], u, now);
      if updated == requests[id] {
        return Failure(InternalError);
      }
      ApplyUpdateKeeps(requests[id], u, now);
      forall other | other != caller
        ensures QueueOf(requests[id := updated], other) == QueueOf(requests, other)
      {
        ReplaceIsolation(requests, id, updated, other);
      }
      requests := requests[id := updated];
      res := Success(ToPublic(updated));
    }

    /** _reorder_queue_after_deletion: one update_many that moves every pending
        record of the artist above the deleted position down by one. */
    method ReorderQueueAfterDeletion(artist: string, deletedPosition: int)
      modifies this`requests
      ensures requests == CloseGap(old(requests), artist, deletedPosition)
    {
      ghost var before := requests;
      var keys := requests.Keys;
      while keys != {}
        invariant keys <= before.Keys && requests.Keys == before.Keys
        invariant forall id :: id in keys ==> requests[id] == before[id]
        invariant forall id :: id in before && id !in keys ==> requests[id] == CloseGap(before, artist, deletedPosition)[id]
      {
        var id :| id in keys;
        var r := requests[id];
        if InQueue(r, artist) && r.queuePosition > deletedPosition {
          requests := requests[id := r.(queuePosition := r.queuePosition - 1)];
        }
        keys := keys - {id};
      }
    }

    /** delete_request: the ownership checks, then the record is removed and
        the caller's queue is repaired at the removed record's position,
        whatever that record's status was. */
    method Delete(requestId: ObjectIdArg, caller: string) returns (res: Result<(), Error>)
      requires Valid()
      modifies this`requests
      ensures Valid()
      ensures CheckOwnership(old(requests), requestId, caller).Some? ==>
        res == Failure(CheckOwnership(old(requests), requestId, caller).value) && requests == old(requests)
      ensures CheckOwnership(old(requests), requestId, caller).None? ==>
        res == Success(())
        && requests == CloseGap(old(requests) - {requestId.id}, caller, old(requests)[requestId.id].queuePosition)
      ensures forall other :: other != caller ==> QueueOf(requests, other) == QueueOf(old(requests), other)
    {
      var e := CheckOwnership(requests, requestId, caller);
      if e.Some? {
        return Failure(e.value);
      }
      var id := requestId.id;
      var deleted := requests[id];
      ghost var before := requests;
      assert ValidRequest(deleted);
      requests := requests - {id};
      ReorderQueueAfterDeletion(caller, deleted.queuePosition);
      CloseGapKeepsWellFormed(before - {id}, caller, deleted.queuePosition);
      forall other | other != caller
        ensures QueueOf(requests, other) == QueueOf(before, other)
      {
        DeleteIsolation(before, caller, id, other);
      }
      res := Success(());
    }

    /** The validation loop of reorder_requests: every item in order, stopping
        at the first that fails. */
    method ValidateReorder(items: seq<RequestReorder>, caller: string) returns (err: Option<Error>)
      ensures err == FirstReorderError(requests, items, caller)
    {
      var i := 0;
      while i < |items|
        invariant i <= |items|
        invariant FirstReorderError(requests, items, caller) == FirstReorderError(requests, items[i..], caller)
      {
        assert items[i..][1..] == items[i + 1..];
        var e := CheckOwnership(requests, items[i].requestId, caller);
        if e.Some? {
          return e;
        }
        i := i + 1;
      }
      err := None;
    }

    /** reorder_requests: all items are validated before any is written, so a
        failing item leaves the store untouched; then each item's position is
        written in list order, each write with its own clock reading
        (stamps[i] for items[i]), and the caller's pending queue is returned. */
    method Reorder(items: seq<RequestReorder>, caller: string, stamps: seq<int>)
      returns (res: Result<seq<RequestPublic>, Error>)
      requires Valid() && ActiveArtist(artists, caller)
      requires forall i :: 0 <= i < |items| ==> ValidRequestReorder(items[i])
      requires |stamps| == |items|
      modifies this`requests
      ensures Valid()
      ensures FirstReorderError(old(requests), items, caller).Some? ==>
        res == Failure(FirstReorderError(old(requests), items, caller).value) && requests == old(requests)
      ensures FirstReorderError(old(requests), items, caller).None? ==>
        requests == ApplyReorder(old(requests), items, stamps)
        && res.Success? && IsListing(requests, caller, "pending", res.value)
      ensures forall other :: other != caller ==> QueueOf(requests, other) == QueueOf(old(requests), other)
    {
      var err := ValidateReorder(items, caller);
      if err.Some? {
        return Failure(err.value);
      }
      ghost var before := requests;
      var i := 0;
      while i < |items|
        invariant i <= |items|
        invariant requests == ApplyReorder(before, items[..i], stamps[..i])
        invariant requests.Keys == before.Keys
      {
        ApplyReorderStep(before, items, stamps, i);
        var item := items[i];
        if item.requestId.WellFormed? && item.requestId.id in requests {
          var id := item.requestId.id;
          requests := requests[id := requests[id].(queuePosition := item.newPosition, updatedAt := stamps[i])];
        }
        i := i + 1;
      }
      assert items[..|items|] == items && stamps[..|stamps|] == stamps;
      ApplyReorderKeepsWellFormed(before, items, stamps);
      forall other | other != caller
        ensures QueueOf(requests, other) == QueueOf(before, other)
      {
        ReorderIsolation(before, items, stamps, caller, other);
      }
      res := List(caller, "pending");
    }
  }
}

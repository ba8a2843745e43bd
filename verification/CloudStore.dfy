/** The two stores the sync moves rows between, updated in place: the sync surface of
    `TrackLibrary` (`copilot/library.py`) and `InMemorySyncClient`
    (`copilot/cloud_sync/client.py`). */
module CloudStore {
  import opened Wrappers
  import opened CloudRows

  type Tracks = map<Id, LocalRow>
  type Remote = map<Id, RemoteTrack>

  /** The remote's last-write-wins upsert: an equal stamp overwrites. */
  function Upserted(remote: Remote, wire: RemoteTrack): Remote {
    if wire.trackId !in remote || wire.stamp >= remote[wire.trackId].stamp
    then remote[wire.trackId := wire]
    else remote
  }

  ghost predicate KeyedById(remote: Remote) {
    forall id :: id in remote ==> remote[id].trackId == id
  }

  /** `order` lists the keys of `remote` once each: a dict's iteration order. */
  ghost predicate ListsKeys(order: seq<Id>, remote: Remote) {
    && (forall i, j :: 0 <= i < j < |order| ==> order[i] != order[j])
    && (forall id :: id in order <==> id in remote)
  }

  /** `rows` is the part of `remote` stamped `since` or later, each row once. */
  ghost predicate IsListing(rows: seq<RemoteTrack>, remote: Remote, since: int) {
    && (forall i, j :: 0 <= i < j < |rows| ==> rows[i].trackId != rows[j].trackId)
    && (forall row :: row in rows <==>
          row.trackId in remote && remote[row.trackId] == row && row.stamp >= since)
  }

  class InMemorySyncClient {
    var rows: Remote
    var order: seq<Id>

    ghost predicate Valid()
      reads this
    {
      KeyedById(rows) && ListsKeys(order, rows)
    }

    constructor (seed: Remote, order: seq<Id>)
      requires KeyedById(seed) && ListsKeys(order, seed)
      ensures Valid() && rows == seed
    {
      this.rows := seed;
      this.order := order;
    }

    method ListTracks(since: int) returns (out: seq<RemoteTrack>)
      requires Valid()
      ensures IsListing(out, rows, since)
    {
      out := [];
      for i := 0 to |order|
        invariant IsListing(out, map id | id in rows && id in order[..i] :: rows[id], since)
      {
        assert order[..i + 1] == order[..i] + [order[i]];
        if rows[order[i]].stamp >= since {
          out := out + [rows[order[i]]];
        }
      }
      assert order[..|order|] == order;
    }

    method UpsertTrack(track: RemoteTrack)
      requires Valid()
      modifies this
      ensures Valid() && rows == Upserted(old(rows), track)
      ensures rows == if track.trackId in old(rows) && track.stamp < old(rows)[track.trackId].stamp then old(rows)
                      else old(rows)[track.trackId := track]
    {
      if track.trackId !in rows {
        order := order + [track.trackId];
        rows := rows[track.trackId := track];
      } else if track.stamp >= rows[track.trackId].stamp {
        rows := rows[track.trackId := track];
      }
    }
  }

  lemma EarliestQueued(left: set<Id>, pending: map<Id, int>) returns (first: Id)
    requires left != {} && left <= pending.Keys
    ensures first in left && forall id :: id in left ==> pending[first] <= pending[id]
  {
    first :| first in left;
    var rest := left - {first};
    assert left == rest + {first};
    if rest != {} {
      var other := EarliestQueued(rest, pending);
      if pending[other] < pending[first] {
        first := other;
      }
    }
  }

  class TrackLibrary {
    var tracks: Tracks
    var pending: map<Id, int>

    constructor ()
      ensures tracks == map[] && pending == map[]
    {
      tracks, pending := map[], map[];
    }

    /** A local write: stamped by the wall clock and queued for push. */
    method AddTrack(id: Id, meta: Meta, cues: seq<Option<int>>, local: LocalOnly, now: int, queuedAt: int)
      modifies this
      ensures tracks == old(tracks)[id := LocalRow(meta, cues, local, now)]
      ensures pending == old(pending)[id := queuedAt]
    {
      tracks := tracks[id := LocalRow(meta, cues, local, now)];
      pending := pending[id := queuedAt];
    }

    method LocalUpdatedAt(id: Id) returns (stamp: Option<int>)
      ensures stamp == if id in tracks then Some(tracks[id].stamp) else None
    {
      stamp := if id in tracks then Some(tracks[id].stamp) else None;
    }

    /** Every queued id once, earliest queued first. */
    method PendingPushIds() returns (ids: seq<Id>)
      ensures forall i, j :: 0 <= i < j < |ids| ==> ids[i] != ids[j]
      ensures forall id :: id in ids <==> id in pending
      ensures forall i, j :: 0 <= i < j < |ids| ==> pending[ids[i]] <= pending[ids[j]]
    {
      ids := [];
      var left := pending.Keys;
      while left != {}
        invariant left <= pending.Keys
        invariant forall id :: id in ids <==> id in pending && id !in left
        invariant forall i, j :: 0 <= i < j < |ids| ==> ids[i] != ids[j]
        invariant forall i, j :: 0 <= i < j < |ids| ==> pending[ids[i]] <= pending[ids[j]]
        invariant forall i, id :: 0 <= i < |ids| && id in left ==> pending[ids[i]] <= pending[id]
      {
        var _ := EarliestQueued(left, pending);
        var first :| first in left && forall id :: id in left ==> pending[first] <= pending[id];
        ids := ids + [first];
        left := left - {first};
      }
    }

    method ClearPendingPush(id: Id)
      modifies this`pending
      ensures pending == old(pending) - {id}
    {
      pending := pending - {id};
    }

    /** Queue every track; those already queued keep their place. */
    method RequeueAllForPush(now: int) returns (total: nat)
      modifies this`pending
      ensures forall id :: id in pending <==> id in tracks || id in old(pending)
      ensures forall id :: id in pending ==> pending[id] == if id in old(pending) then old(pending)[id] else now
      ensures total == |pending|
    {
      pending := (map id | id in tracks :: now) + pending;
      total := |pending|;
    }

    method RowForCloudPush(id: Id) returns (row: Option<LocalRow>)
      ensures row == if id in tracks then Some(tracks[id]) else None
    {
      row := if id in tracks then Some(tracks[id]) else None;
    }

    /** Write a remote row with the stamp it carries, without queueing it. */
    method UpsertFromRemote(wire: RemoteTrack)
      modifies this`tracks
      ensures tracks == old(tracks)[wire.trackId := FromWire(wire)]
      ensures tracks[wire.trackId].stamp == wire.stamp
    {
      tracks := tracks[wire.trackId := FromWire(wire)];
    }
  }
}

/** `LibrarySyncer` (`copilot/cloud_sync/syncer.py`): one pull pass and one push pass.
    The loops follow the row-by-row folds `MergedRows` and `PushedIds`; the contracts
    state what a pass does to each id, whatever the order of the rows. */
module CloudSyncer {
  import opened Wrappers
  import opened CloudRows
  import opened CloudStore

  datatype ConflictOutcome = RemoteApplied | LocalKept | LocalInserted

  type Outcomes = map<Id, ConflictOutcome>

  datatype PullResult = PullResult(
    fetched: nat, applied: nat, keptLocal: nat, inserted: nat,
    transportError: bool, outcomes: Outcomes)

  datatype PushResult = PushResult(pushed: nat, skippedMissing: nat, transportError: bool)

  // ---------------------------------------------------------------- pull

  /** Last write wins, ties to the local row. */
  function OutcomeOf(tracks: Tracks, row: RemoteTrack): ConflictOutcome {
    if row.trackId !in tracks then LocalInserted
    else if row.stamp > tracks[row.trackId].stamp then RemoteApplied
    else LocalKept
  }

  function MergedRow(tracks: Tracks, row: RemoteTrack): Tracks {
    if OutcomeOf(tracks, row) == LocalKept then tracks else tracks[row.trackId := FromWire(row)]
  }

  function MergedRows(tracks: Tracks, rows: seq<RemoteTrack>): Tracks {
    if rows == [] then tracks
    else MergedRow(MergedRows(tracks, rows[..|rows| - 1]), rows[|rows| - 1])
  }

  function OutcomesOf(tracks: Tracks, rows: seq<RemoteTrack>): Outcomes {
    if rows == [] then map[]
    else
      var init, last := rows[..|rows| - 1], rows[|rows| - 1];
      OutcomesOf(tracks, init)[last.trackId := OutcomeOf(MergedRows(tracks, init), last)]
  }

  /** The part of the remote that a pull since `since` fetches. */
  function Since(remote: Remote, since: int): Remote {
    map id | id in remote && remote[id].stamp >= since :: remote[id]
  }

  /** The library after each row of `fetched` met its local row. */
  function Merged(tracks: Tracks, fetched: Remote): Tracks {
    map id | id in tracks.Keys + fetched.Keys ::
      if id in fetched && (id !in tracks || fetched[id].stamp > tracks[id].stamp)
      then FromWire(fetched[id]) else tracks[id]
  }

  /** The outcome each fetched row meets in the library as it was before the pull. */
  function OutcomesFor(tracks: Tracks, fetched: Remote): Outcomes {
    map id | id in fetched :: OutcomeOf(tracks, fetched[id])
  }

  /** What a pull does to one track: it takes a row stamped in the window that is new or strictly
      newer, and leaves every other track as it was. */
  lemma PullMeaning(tracks: Tracks, remote: Remote, since: int, id: Id)
    ensures var after, outcomes := Merged(tracks, Since(remote, since)), OutcomesFor(tracks, Since(remote, since));
            var inWindow := id in remote && remote[id].stamp >= since;
            && (id in outcomes <==> inWindow) && (id in after <==> id in tracks || inWindow)
            && (inWindow && id !in tracks ==>
                  after[id] == FromWire(remote[id]) && (remote[id].trackId == id ==> outcomes[id] == LocalInserted))
            && (inWindow && id in tracks && remote[id].trackId == id ==>
                  outcomes[id] == if remote[id].stamp > tracks[id].stamp then RemoteApplied else LocalKept)
            && (inWindow && id in tracks && remote[id].stamp > tracks[id].stamp ==> after[id] == FromWire(remote[id]))
            && (id in tracks && (inWindow ==> remote[id].stamp <= tracks[id].stamp) ==> after[id] == tracks[id])
  {
  }

  function WithOutcome(outcomes: Outcomes, o: ConflictOutcome): set<Id> {
    set id | id in outcomes && outcomes[id] == o
  }

  lemma CountOutcome(outcomes: Outcomes, id: Id, o: ConflictOutcome, p: ConflictOutcome)
    requires id !in outcomes
    ensures |WithOutcome(outcomes[id := o], p)| == |WithOutcome(outcomes, p)| + if p == o then 1 else 0
  {
    assert WithOutcome(outcomes[id := o], p)
        == if p == o then WithOutcome(outcomes, p) + {id} else WithOutcome(outcomes, p);
  }

  /** `rows` are the rows of `fetched`, each once. */
  ghost predicate RowsOf(rows: seq<RemoteTrack>, fetched: Remote) {
    && (forall i, j :: 0 <= i < j < |rows| ==> rows[i].trackId != rows[j].trackId)
    && (forall i :: 0 <= i < |rows| ==> rows[i].trackId in fetched && fetched[rows[i].trackId] == rows[i])
    && (forall id :: id in fetched ==> fetched[id] in rows && fetched[id].trackId == id)
  }

  lemma RowsOfInit(rows: seq<RemoteTrack>, fetched: Remote)
    requires RowsOf(rows, fetched) && rows != []
    ensures RowsOf(rows[..|rows| - 1], fetched - {rows[|rows| - 1].trackId})
  {
  }

  lemma MergedRowIsMerged(tracks: Tracks, earlier: Remote, row: RemoteTrack)
    requires row.trackId !in earlier
    ensures MergedRow(Merged(tracks, earlier), row) == Merged(tracks, earlier[row.trackId := row])
    ensures OutcomesFor(tracks, earlier)[row.trackId := OutcomeOf(Merged(tracks, earlier), row)]
         == OutcomesFor(tracks, earlier[row.trackId := row])
  {
  }

  lemma SplitLast(rows: seq<RemoteTrack>, fetched: Remote)
    requires RowsOf(rows, fetched) && rows != []
    ensures var init, last := rows[..|rows| - 1], rows[|rows| - 1];
            var earlier := fetched - {last.trackId};
            RowsOf(init, earlier) && last.trackId !in earlier && fetched == earlier[last.trackId := last]
            && |fetched| == |earlier| + 1
  {
    RowsOfInit(rows, fetched);
    var last := rows[|rows| - 1];
    assert fetched.Keys == (fetched - {last.trackId}).Keys + {last.trackId};
  }

  lemma {:induction false} RowsCount(rows: seq<RemoteTrack>, fetched: Remote)
    requires RowsOf(rows, fetched)
    ensures |rows| == |fetched|
  {
    if rows == [] {
      assert fetched == map[];
    } else {
      SplitLast(rows, fetched);
      RowsCount(rows[..|rows| - 1], fetched - {rows[|rows| - 1].trackId});
    }
  }

  lemma {:induction false} MergedOneByOne(tracks: Tracks, rows: seq<RemoteTrack>, fetched: Remote)
    requires RowsOf(rows, fetched)
    ensures MergedRows(tracks, rows) == Merged(tracks, fetched)
    ensures OutcomesOf(tracks, rows) == OutcomesFor(tracks, fetched)
  {
    if rows == [] {
      assert fetched == map[];
    } else {
      var init, last := rows[..|rows| - 1], rows[|rows| - 1];
      var earlier := fetched - {last.trackId};
      SplitLast(rows, fetched);
      hide RowsOf, Merged, OutcomesFor, MergedRow, OutcomeOf;
      MergedOneByOne(tracks, init, earlier);
      MergedRowIsMerged(tracks, earlier, last);
    }
  }

  /** Rows of distinct tracks do not see each other's merges. */
  lemma MergedDistinctRows(tracks: Tracks, rows: seq<RemoteTrack>, fetched: Remote)
    requires RowsOf(rows, fetched)
    ensures MergedRows(tracks, rows) == Merged(tracks, fetched)
    ensures OutcomesOf(tracks, rows) == OutcomesFor(tracks, fetched)
    ensures |OutcomesOf(tracks, rows)| == |rows|
  {
    MergedOneByOne(tracks, rows, fetched);
    RowsCount(rows, fetched);
    assert OutcomesFor(tracks, fetched).Keys == fetched.Keys;
  }

  lemma ListingIsSince(rows: seq<RemoteTrack>, remote: Remote, since: int)
    requires IsListing(rows, remote, since) && KeyedById(remote)
    ensures RowsOf(rows, Since(remote, since))
  {
  }

  // ---------------------------------------------------------------- push

  /** How many of `ids` a push pass gets through when the upsert numbered `failAt`
      (counting from zero, missing rows not counted) raises. */
  function Reached(tracks: Tracks, ids: seq<Id>, failAt: Option<nat>): (n: nat)
    ensures n <= |ids|
  {
    if ids == [] || (ids[0] in tracks && failAt == Some(0)) then 0
    else
      1 + Reached(tracks, ids[1..],
                  if ids[0] in tracks && failAt.Some? then Some(failAt.value - 1) else failAt)
  }

  function CountPresent(tracks: Tracks, ids: seq<Id>): nat {
    if ids == [] then 0
    else CountPresent(tracks, ids[..|ids| - 1]) + if ids[|ids| - 1] in tracks then 1 else 0
  }

  function PushedId(remote: Remote, tracks: Tracks, id: Id): Remote {
    if id in tracks then Upserted(remote, ToWire(id, tracks[id])) else remote
  }

  function PushedIds(remote: Remote, tracks: Tracks, ids: seq<Id>): Remote {
    if ids == [] then remote
    else PushedId(PushedIds(remote, tracks, ids[..|ids| - 1]), tracks, ids[|ids| - 1])
  }

  /** The ids among `ids` that still have a local row. */
  function Present(tracks: Tracks, ids: seq<Id>): set<Id> {
    set id | id in ids && id in tracks
  }

  /** The remote after every id of `ids` was upserted from `tracks`. */
  function Pushed(remote: Remote, tracks: Tracks, ids: set<Id>): Remote
    requires ids <= tracks.Keys
  {
    map id | id in remote.Keys + ids ::
      if id in ids && (id !in remote || tracks[id].stamp >= remote[id].stamp)
      then ToWire(id, tracks[id]) else remote[id]
  }

  /** Of ids listed once each, the uploads are counted one by one. */
  lemma {:induction false} CountsPresent(tracks: Tracks, ids: seq<Id>)
    requires forall i, j :: 0 <= i < j < |ids| ==> ids[i] != ids[j]
    ensures CountPresent(tracks, ids) == |set id | id in ids && id in tracks|
  {
    if ids != [] {
      var init, last := ids[..|ids| - 1], ids[|ids| - 1];
      CountsPresent(tracks, init);
      assert ids == init + [last];
      assert Present(tracks, ids) == Present(tracks, init) + if last in tracks then {last} else {};
    }
  }

  lemma {:induction false} PushedIdsArePushed(remote: Remote, tracks: Tracks, ids: seq<Id>)
    ensures PushedIds(remote, tracks, ids) == Pushed(remote, tracks, Present(tracks, ids))
  {
    if ids != [] {
      var init, last := ids[..|ids| - 1], ids[|ids| - 1];
      PushedIdsArePushed(remote, tracks, init);
      assert ids == init + [last];
      assert Present(tracks, ids) == Present(tracks, init) + if last in tracks then {last} else {};
    }
  }

  lemma {:induction false} CountPresentCons(tracks: Tracks, ids: seq<Id>)
    requires ids != []
    ensures CountPresent(tracks, ids) == (if ids[0] in tracks then 1 else 0) + CountPresent(tracks, ids[1..])
  {
    if |ids| > 1 {
      CountPresentCons(tracks, ids[..|ids| - 1]);
      assert ids[1..][..|ids| - 2] == ids[..|ids| - 1][1..];
    } else {
      assert ids[..0] == ids[1..] == [];
    }
  }

  /** `Reached` continued from where a pass has got to: `n` ids done, `k` of them uploaded. */
  lemma {:induction false} ReachedFrom(tracks: Tracks, ids: seq<Id>, failAt: Option<nat>, n: nat, k: nat)
    requires n <= |ids| && k == CountPresent(tracks, ids[..n])
    requires failAt.Some? ==> k <= failAt.value
    ensures Reached(tracks, ids, failAt)
         == n + Reached(tracks, ids[n..], if failAt.Some? then Some(failAt.value - k) else None)
  {
    if n == 0 {
      assert ids[0..] == ids;
    } else {
      CountPresentCons(tracks, ids[..n]);
      assert ids[..n][1..] == ids[1..][..n - 1];
      assert ids[1..][n - 1..] == ids[n..];
      var present := if ids[0] in tracks then 1 else 0;
      var rest := if ids[0] in tracks && failAt.Some? then Some(failAt.value - 1) else failAt;
      ReachedFrom(tracks, ids[1..], rest, n - 1, k - present);
    }
  }

  /** Where a pass stops: before the present id whose upsert raises, all the present ids before it
      uploaded; or at the end, when fewer upserts are due than that. */
  lemma {:induction false} PassStopsAt(tracks: Tracks, ids: seq<Id>, failAt: Option<nat>)
    ensures var n := Reached(tracks, ids, failAt);
            if failAt.Some? && failAt.value < CountPresent(tracks, ids)
            then n < |ids| && ids[n] in tracks && CountPresent(tracks, ids[..n]) == failAt.value
            else n == |ids|
  {
    if ids != [] {
      CountPresentCons(tracks, ids);
      var n := Reached(tracks, ids, failAt);
      if n > 0 {
        var rest := if ids[0] in tracks && failAt.Some? then Some(failAt.value - 1) else failAt;
        PassStopsAt(tracks, ids[1..], rest);
        CountPresentCons(tracks, ids[..n]);
        assert ids[..n][1..] == ids[1..][..n - 1];
      } else {
        assert ids[..0] == [];
      }
    }
  }

  /** Remote and outbox after a push pass that got through `done`. */
  ghost predicate AfterIds(
    remote0: Remote, pending0: map<Id, int>, tracks: Tracks, done: seq<Id>, remote: Remote, pending: map<Id, int>)
  {
    remote == PushedIds(remote0, tracks, done) && pending == pending0 - Present(tracks, done)
  }

  lemma AfterOneMore(
    remote0: Remote, pending0: map<Id, int>, tracks: Tracks, done: seq<Id>, id: Id,
    remote: Remote, pending: map<Id, int>)
    requires AfterIds(remote0, pending0, tracks, done, remote, pending)
    ensures CountPresent(tracks, done + [id]) == CountPresent(tracks, done) + if id in tracks then 1 else 0
    ensures AfterIds(remote0, pending0, tracks, done + [id],
                     PushedId(remote, tracks, id), if id in tracks then pending - {id} else pending)
  {
  }

  /** A pass that stops before its `n`th id, at the failing upsert or at the end. */
  lemma PassEndsAt(
    remote0: Remote, pending0: map<Id, int>, tracks: Tracks, ids: seq<Id>, failAt: Option<nat>, n: nat,
    remote: Remote, pending: map<Id, int>)
    requires n <= |ids| && AfterIds(remote0, pending0, tracks, ids[..n], remote, pending)
    requires failAt.Some? ==> CountPresent(tracks, ids[..n]) <= failAt.value
    requires n < |ids| ==> ids[n] in tracks && failAt == Some(CountPresent(tracks, ids[..n]))
    ensures Reached(tracks, ids, failAt) == n
    ensures remote == Pushed(remote0, tracks, Present(tracks, ids[..n]))
    ensures pending == pending0 - Present(tracks, ids[..n])
  {
    ReachedFrom(tracks, ids, failAt, n, CountPresent(tracks, ids[..n]));
    PushedIdsArePushed(remote0, tracks, ids[..n]);
  }

  // ---------------------------------------------------------------- the passes

  class LibrarySyncer {
    const client: InMemorySyncClient
    const library: TrackLibrary

    constructor (client: InMemorySyncClient, library: TrackLibrary)
      ensures this.client == client && this.library == library
    {
      this.client, this.library := client, library;
    }

    /** One pull pass. `online` says whether `list_tracks` gets through. */
    method Pull(since: int, online: bool) returns (r: PullResult)
      requires client.Valid()
      modifies library`tracks
      ensures !online ==> r == PullResult(0, 0, 0, 0, true, map[]) && library.tracks == old(library.tracks)
      ensures online ==>
                var fetched := Since(client.rows, since);
                && library.tracks == Merged(old(library.tracks), fetched)
                && !r.transportError
                && r.outcomes == OutcomesFor(old(library.tracks), fetched)
                && r.fetched == |r.outcomes|
                && r.applied == |WithOutcome(r.outcomes, RemoteApplied)|
                && r.keptLocal == |WithOutcome(r.outcomes, LocalKept)|
                && r.inserted == |WithOutcome(r.outcomes, LocalInserted)|
    {
      if !online {
        return PullResult(0, 0, 0, 0, true, map[]);
      }
      ghost var before := library.tracks;
      var rows := client.ListTracks(since);
      var applied, kept, inserted := 0, 0, 0;
      var outcomes: Outcomes := map[];
      for i := 0 to |rows|
        invariant library.tracks == MergedRows(before, rows[..i])
        invariant outcomes == OutcomesOf(before, rows[..i])
        invariant forall id :: id in outcomes ==> exists j :: 0 <= j < i && rows[j].trackId == id
        invariant applied == |WithOutcome(outcomes, RemoteApplied)|
        invariant kept == |WithOutcome(outcomes, LocalKept)|
        invariant inserted == |WithOutcome(outcomes, LocalInserted)|
      {
        var row := rows[i];
        assert rows[..i + 1][..i] == rows[..i];
        ghost var expected := OutcomeOf(library.tracks, row);
        forall p { CountOutcome(outcomes, row.trackId, expected, p); }
        var stamp := library.LocalUpdatedAt(row.trackId);
        if stamp == None {
          library.UpsertFromRemote(row);
          inserted := inserted + 1;
          outcomes := outcomes[row.trackId := LocalInserted];
        } else if row.stamp > stamp.value {
          library.UpsertFromRemote(row);
          applied := applied + 1;
          outcomes := outcomes[row.trackId := RemoteApplied];
        } else {
          kept := kept + 1;
          outcomes := outcomes[row.trackId := LocalKept];
        }
      }
      assert rows[..|rows|] == rows;
      ListingIsSince(rows, client.rows, since);
      MergedDistinctRows(before, rows, Since(client.rows, since));
      r := PullResult(|rows|, applied, kept, inserted, false, outcomes);
    }

    /** One push pass over `ids`. `failAt` is the upsert that raises a transport error, if any. */
    method PushPending(ids: seq<Id>, failAt: Option<nat>) returns (r: PushResult)
      requires client.Valid()
      modifies client, library`pending
      ensures client.Valid()
      ensures var done := ids[..Reached(library.tracks, ids, failAt)];
              && client.rows == Pushed(old(client.rows), library.tracks, Present(library.tracks, done))
              && library.pending == old(library.pending) - Present(library.tracks, done)
              && r.pushed == CountPresent(library.tracks, done)
              && r.pushed + r.skippedMissing == |done|
              && (r.transportError <==> |done| < |ids|)
    {
      var pushed, skipped := 0, 0;
      ghost var before, queued, tracks := client.rows, library.pending, library.tracks;
      for i := 0 to |ids|
        invariant client.Valid() && library.tracks == tracks
        invariant AfterIds(before, queued, tracks, ids[..i], client.rows, library.pending)
        invariant pushed == CountPresent(tracks, ids[..i]) && pushed + skipped == i
        invariant failAt.Some? ==> pushed <= failAt.value
      {
        AfterOneMore(before, queued, tracks, ids[..i], ids[i], client.rows, library.pending);
        assert ids[..i + 1] == ids[..i] + [ids[i]];
        var row := library.RowForCloudPush(ids[i]);
        if row == None {
          skipped := skipped + 1;
        } else {
          if failAt == Some(pushed) {
            PassEndsAt(before, queued, tracks, ids, failAt, i, client.rows, library.pending);
            return PushResult(pushed, skipped, true);
          }
          client.UpsertTrack(ToWire(ids[i], row.value));
          library.ClearPendingPush(ids[i]);
          pushed := pushed + 1;
        }
      }
      PassEndsAt(before, queued, tracks, ids, failAt, |ids|, client.rows, library.pending);
      r := PushResult(pushed, skipped, false);
    }
  }
}
